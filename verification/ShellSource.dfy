/** Command lines as they are typed: words and signs with any blanks between them, parentheses
    only where the user wants them. Parsing such a line gives the command it means. */
module ShellSource {
  import opened Options
  import opened Shell

  // ---------- tokens with gaps ----------

  datatype Tok = Word(w: string) | Sign(s: string)

  /** The characters that end a word: blanks, signs and NUL. */
  const BLANKS: string := " \t\r\n\U{0B}"
  const SIGNS: string := "<|>&;()"

  predicate Legal(t: Tok) {
    match t
    case Word(w) => w != "" && forall i :: 0 <= i < |w| ==> w[i] !in BLANKS && w[i] !in SIGNS && w[i] != '\0'
    case Sign(s) => s == ">>" || (|s| == 1 && s[0] in SIGNS)
  }

  predicate Blank(g: string) {
    forall i :: 0 <= i < |g| ==> g[i] in BLANKS
  }

  function Spelling(t: Tok): string {
    if t.Word? then t.w else t.s
  }

  /** Two tokens that run together when nothing stands between them. */
  predicate Sticks(t: Tok, u: Tok) {
    (t.Word? && u.Word?) || (t == Sign(">") && u.Sign? && u.s != "" && u.s[0] == '>')
  }

  /** A gap before each token and one at the end. */
  predicate Gapped(gaps: seq<string>, toks: seq<Tok>) {
    && |gaps| == |toks| + 1
    && (forall k :: 0 <= k < |gaps| ==> Blank(gaps[k]))
    && (forall k :: 0 <= k < |toks| ==> Legal(toks[k]))
    && forall k :: 0 < k < |toks| && Sticks(toks[k - 1], toks[k]) ==> gaps[k] != ""
  }

  function Source(gaps: seq<string>, toks: seq<Tok>): string
    requires |gaps| == |toks| + 1
  {
    if toks == [] then gaps[0] else gaps[0] + (Spelling(toks[0]) + Source(gaps[1..], toks[1..]))
  }

  // ---------- the language ----------

  datatype Into = Into(sign: string, file: string)

  datatype Piece = Arg(w: string) | To(into: Into)

  datatype Simple = Plain(pieces: seq<Piece>) | Paren(line: Line, intos: seq<Into>)

  datatype Pipeline = One(cmd: Simple) | Piped(cmd: Simple, rest: Pipeline)

  /** A pipeline, as many `&` as `backs`, and perhaps `;` and another line. */
  datatype Line = Last(pipe: Pipeline, backs: nat) | Then(pipe: Pipeline, backs: nat, next: Line)

  function IntoToks(r: Into): seq<Tok> {
    [Sign(r.sign), Word(r.file)]
  }

  function IntosToks(rs: seq<Into>): seq<Tok> {
    if rs == [] then [] else IntoToks(rs[0]) + IntosToks(rs[1..])
  }

  function PiecesToks(ps: seq<Piece>): seq<Tok> {
    if ps == [] then [] else (if ps[0].Arg? then [Word(ps[0].w)] else IntoToks(ps[0].into)) + PiecesToks(ps[1..])
  }

  function SimpleToks(c: Simple): seq<Tok> {
    match c
    case Plain(ps) => PiecesToks(ps)
    case Paren(line, rs) => [Sign("(")] + (LineToks(line) + ([Sign(")")] + IntosToks(rs)))
  }

  function PipeToks(p: Pipeline): seq<Tok> {
    match p
    case One(c) => SimpleToks(c)
    case Piped(c, rest) => SimpleToks(c) + ([Sign("|")] + PipeToks(rest))
  }

  function Ands(n: nat): seq<Tok> {
    if n == 0 then [] else [Sign("&")] + Ands(n - 1)
  }

  function LineToks(l: Line): seq<Tok> {
    match l
    case Last(p, n) => PipeToks(p) + Ands(n)
    case Then(p, n, next) => PipeToks(p) + (Ands(n) + ([Sign(";")] + LineToks(next)))
  }

  // ---------- what a line means ----------

  /** `<` reads the file; `>` and `>>` write it. */
  function Around(c: Cmd<string>, r: Into): Cmd<string> {
    Redir(c, r.file, if r.sign == "<" then In else Out)
  }

  function AroundAll(c: Cmd<string>, rs: seq<Into>): Cmd<string>
    decreases rs
  {
    if rs == [] then c else AroundAll(Around(c, rs[0]), rs[1..])
  }

  function Args(ps: seq<Piece>): seq<string> {
    if ps == [] then [] else (if ps[0].Arg? then [ps[0].w] else []) + Args(ps[1..])
  }

  function Intos(ps: seq<Piece>): seq<Into> {
    if ps == [] then [] else (if ps[0].Arg? then [] else [ps[0].into]) + Intos(ps[1..])
  }

  function SimpleMeans(c: Simple): Cmd<string> {
    match c
    case Plain(ps) => AroundAll(Exec(Args(ps)), Intos(ps))
    case Paren(line, rs) => AroundAll(LineMeans(line), rs)
  }

  function PipeMeans(p: Pipeline): Cmd<string> {
    match p
    case One(c) => SimpleMeans(c)
    case Piped(c, rest) => Pipe(SimpleMeans(c), PipeMeans(rest))
  }

  function InBack(c: Cmd<string>, n: nat): Cmd<string>
    decreases n
  {
    if n == 0 then c else InBack(Back(c), n - 1)
  }

  function LineMeans(l: Line): Cmd<string> {
    match l
    case Last(p, n) => InBack(PipeMeans(p), n)
    case Then(p, n, next) => List(InBack(PipeMeans(p), n), LineMeans(next))
  }

  predicate IsInto(r: Into) {
    r.sign == "<" || r.sign == ">" || r.sign == ">>"
  }

  /** Only `<`, `>` and `>>` redirect, and no command has more than nine words. */
  predicate SimpleFits(c: Simple) {
    match c
    case Plain(ps) => |Args(ps)| <= 9 && forall i :: 0 <= i < |ps| && ps[i].To? ==> IsInto(ps[i].into)
    case Paren(line, rs) => LineFits(line) && forall i :: 0 <= i < |rs| ==> IsInto(rs[i])
  }

  predicate PipeFits(p: Pipeline) {
    match p
    case One(c) => SimpleFits(c)
    case Piped(c, rest) => SimpleFits(c) && PipeFits(rest)
  }

  predicate LineFits(l: Line) {
    match l
    case Last(p, n) => PipeFits(p)
    case Then(p, n, next) => PipeFits(p) && LineFits(next)
  }

  // ---------- reading tokens ----------

  /** From `s` on, the buffer spells these tokens. */
  ghost predicate Here(b: string, s: nat, toks: seq<Tok>) {
    CString(b) && s <= |b| && exists gaps :: Spelled(b, s, gaps, toks)
  }

  predicate Spelled(b: string, s: nat, gaps: seq<string>, toks: seq<Tok>) {
    s <= |b| && Gapped(gaps, toks) && b[s..] == Source(gaps, toks)
  }

  lemma {:induction false} SkipTo(b: string, s: nat, j: nat)
    requires s <= j <= |b| && (forall i :: s <= i < j ==> IsSpace(b[i])) && (j == |b| || !IsSpace(b[j]))
    ensures Skip(b, s) == j
    decreases j - s
  {
    if s < j {
      SkipTo(b, s + 1, j);
    }
  }

  lemma {:induction false} WordTo(b: string, s: nat, j: nat)
    requires CString(b) && s <= j <= |b| && (forall i :: s <= i < j ==> InWord(b[i])) && (j == |b| || !InWord(b[j]))
    ensures WordEnd(b, s) == j
    decreases j - s
  {
    if s < j {
      WordTo(b, s + 1, j);
    }
  }

  lemma Suffix(b: string, s: nat, x: string, y: string)
    requires s <= |b| && b[s..] == x + y
    ensures s + |x| <= |b| && b[s..s + |x|] == x && b[s + |x|..] == y
    ensures forall i :: 0 <= i < |x| ==> b[s + i] == x[i]
  {
    assert b[s..s + |x|] == b[s..][..|x|];
    assert b[s + |x|..] == b[s..][|x|..];
    assert forall i :: 0 <= i < |x| ==> b[s + i] == b[s..][i];
  }

  /** The first token and what follows it. */
  function FromFirst(gaps: seq<string>, toks: seq<Tok>): string
    requires |gaps| == |toks| + 1
  {
    if toks == [] then "" else Spelling(toks[0]) + Source(gaps[1..], toks[1..])
  }

  lemma Regapped(gaps: seq<string>, toks: seq<Tok>)
    requires Gapped(gaps, toks)
    ensures var gaps' := [""] + gaps[1..];
      Gapped(gaps', toks) && Source(gaps, toks) == gaps[0] + FromFirst(gaps, toks) && Source(gaps', toks) == FromFirst(gaps, toks)
  {
    var gaps' := [""] + gaps[1..];
    assert gaps'[1..] == gaps[1..];
    assert "" + FromFirst(gaps, toks) == FromFirst(gaps, toks);
    hide Blank, Legal, Spelling, Sticks;
  }

  lemma FirstIsSolid(gaps: seq<string>, toks: seq<Tok>)
    requires Gapped(gaps, toks) && toks != []
    ensures Spelling(toks[0]) != "" && FromFirst(gaps, toks) != "" && FromFirst(gaps, toks)[0] == Spelling(toks[0])[0]
    ensures !IsSpace(Spelling(toks[0])[0])
  {
    assert Legal(toks[0]);
  }

  /** Behind the first gap stands the first token. */
  lemma GapSkipped(b: string, s: nat, gaps: seq<string>, toks: seq<Tok>)
    requires Spelled(b, s, gaps, toks)
    ensures var j := Skip(b, s);
      && j <= |b| && Spelled(b, j, [""] + gaps[1..], toks)
      && (toks == [] ==> j == |b|)
      && (toks != [] ==> j < |b| && b[j] == Spelling(toks[0])[0] && b[j..] == Spelling(toks[0]) + Source(gaps[1..], toks[1..]))
  {
    hide Source, Legal, Skip, Spelling;
    Regapped(gaps, toks);
    var rest := FromFirst(gaps, toks);
    Suffix(b, s, gaps[0], rest);
    var j := s + |gaps[0]|;
    if toks != [] {
      FirstIsSolid(gaps, toks);
      assert b[j] == b[j..][0];
    }
    assert Blank(gaps[0]);
    SkipTo(b, s, j);
  }

  /** `peek` sees the first character of the first token. */
  lemma Look(b: string, s: nat, toks: seq<Tok>, chars: string)
    requires Here(b, s, toks) && '\0' !in chars
    ensures Peek(b, s, chars) <==> toks != [] && Spelling(toks[0]) != "" && Spelling(toks[0])[0] in chars
    ensures Here(b, Skip(b, s), toks) && (toks == [] ==> Skip(b, s) == |b|)
  {
    var gaps :| Spelled(b, s, gaps, toks);
    GapSkipped(b, s, gaps, toks);
    assert toks != [] ==> Legal(toks[0]);
    hide Skip, Source;
  }

  function Code(t: Tok): char {
    if t.Word? then 'a' else if t.s == ">>" then '+' else if t.s == "" then '\0' else t.s[0]
  }

  /** `gettoken` takes the first token. */
  lemma Take(b: string, s: nat, toks: seq<Tok>)
    requires Here(b, s, toks) && toks != []
    ensures var t := GetToken(b, s);
      t.tok == Code(toks[0]) && Text(b, Span(t.q, t.eq)) == Spelling(toks[0]) && Here(b, t.next, toks[1..])
  {
    hide GetToken, Skip, Spelled, Legal, Code, Spelling, Source, Gapped, Apart, Text, CString;
    var gaps := Gaps(b, s, toks);
    GapSkipped(b, s, gaps, toks);
    var j := Skip(b, s);
    SpelledLegal(b, s, gaps, toks);
    AfterFirst(gaps, toks);
    TokenAt(b, s, j, toks[0], Source(gaps[1..], toks[1..]));
    Behind(b, j, gaps, toks);
    GapSkipped(b, j + |Spelling(toks[0])|, gaps[1..], toks[1..]);
  }

  lemma SpelledLegal(b: string, s: nat, gaps: seq<string>, toks: seq<Tok>)
    requires Spelled(b, s, gaps, toks) && toks != []
    ensures Gapped(gaps, toks) && Legal(toks[0])
  {
  }

  /** What follows the first token does not run together with it. */
  lemma AfterFirst(gaps: seq<string>, toks: seq<Tok>)
    requires Gapped(gaps, toks) && toks != []
    ensures var rest := Source(gaps[1..], toks[1..]); Apart(toks[0], rest)
  {
    var rest := Source(gaps[1..], toks[1..]);
    if gaps[1] != "" {
      assert rest[0] == gaps[1][0];
    } else if |toks| > 1 {
      assert gaps[1..][0] == gaps[1] == "";
      assert Legal(toks[1]) && !Sticks(toks[0], toks[1]);
      assert rest == Spelling(toks[1]) + Source(gaps[1..][1..], toks[1..][1..]);
      assert rest[0] == Spelling(toks[1])[0];
    }
  }

  predicate Apart(t: Tok, rest: string) {
    && (t.Word? && rest != "" ==> !InWord(rest[0]))
    && (t == Sign(">") && rest != "" ==> rest[0] != '>')
  }

  lemma TokenAt(b: string, s: nat, j: nat, t: Tok, rest: string)
    requires CString(b) && s <= |b| && Skip(b, s) == j < |b| && Legal(t) && b[j..] == Spelling(t) + rest && Apart(t, rest)
    ensures var e := j + |Spelling(t)|; e <= |b| && GetToken(b, s) == Token(Code(t), j, e, Skip(b, e)) && Text(b, Span(j, e)) == Spelling(t)
  {
    hide Skip, WordEnd;
    Suffix(b, j, Spelling(t), rest);
    var e := j + |Spelling(t)|;
    assert e < |b| ==> b[e] == b[e..][0];
    assert b[j] == Spelling(t)[0];
    if t.Word? {
      WordTo(b, j, e);
    }
  }

  ghost function Gaps(b: string, s: nat, toks: seq<Tok>): (gaps: seq<string>)
    requires Here(b, s, toks)
    ensures Spelled(b, s, gaps, toks)
  {
    var gaps :| Spelled(b, s, gaps, toks);
    gaps
  }

  /** Where the token at `j` ends, the buffer spells the tokens behind it. */
  lemma Behind(b: string, j: nat, gaps: seq<string>, toks: seq<Tok>)
    requires Gapped(gaps, toks) && toks != [] && j <= |b| && b[j..] == Spelling(toks[0]) + Source(gaps[1..], toks[1..])
    ensures Spelled(b, j + |Spelling(toks[0])|, gaps[1..], toks[1..])
  {
    hide Source, Blank, Legal, Sticks, Spelling;
    Suffix(b, j, Spelling(toks[0]), Source(gaps[1..], toks[1..]));
    GappedTail(gaps, toks);
  }

  lemma GappedTail(gaps: seq<string>, toks: seq<Tok>)
    requires Gapped(gaps, toks) && toks != []
    ensures Gapped(gaps[1..], toks[1..])
  {
    hide Blank, Legal, Sticks;
  }

  // ---------- reading commands ----------

  /** What may follow a simple command, a pipeline, a line. */
  predicate Follows(rest: seq<Tok>, signs: string) {
    rest != [] ==> rest[0].Sign? && |rest[0].s| == 1 && rest[0].s[0] in signs
  }

  /** The result is this command, and the cursor stands before `rest`. */
  ghost predicate Reads(b: string, r: Option<(Cmd<Span>, nat)>, c: Cmd<string>, rest: seq<Tok>) {
    r.Some? && Here(b, r.value.1, rest) && Words(b, r.value.0) == c
  }

  function ModeOf(r: Into): Mode {
    if r.sign == "<" then In else Out
  }

  lemma TakeOne(b: string, s: nat, t: Tok, rest: seq<Tok>)
    requires Here(b, s, [t] + rest)
    ensures var g := GetToken(b, s); g.tok == Code(t) && Text(b, Span(g.q, g.eq)) == Spelling(t) && Here(b, g.next, rest)
  {
    hide GetToken, Here, Code, Spelling, Text;
    assert ([t] + rest)[1..] == rest;
    Take(b, s, [t] + rest);
  }

  lemma LookOne(b: string, s: nat, t: Tok, rest: seq<Tok>, chars: string)
    requires Here(b, s, [t] + rest) && '\0' !in chars
    ensures Peek(b, s, chars) <==> Spelling(t) != "" && Spelling(t)[0] in chars
    ensures Here(b, Skip(b, s), [t] + rest)
  {
    hide Peek, Here, Spelling, Skip;
    Look(b, s, [t] + rest, chars);
  }

  /** One redirection is read. */
  lemma IntoRead(b: string, s: nat, rs: Redirs, r: Into, rest: seq<Tok>) returns (span: Span, s': nat)
    requires Here(b, s, IntoToks(r) + rest) && IsInto(r)
    ensures Here(b, s', rest) && Text(b, span) == r.file
    ensures ParseRedirs(b, s, rs) == ParseRedirs(b, s', rs + [(span, ModeOf(r))])
  {
    hide GetToken, Peek, Here, Text, Skip;
    assert IntoToks(r) + rest == [Sign(r.sign)] + ([Word(r.file)] + rest);
    LookOne(b, s, Sign(r.sign), [Word(r.file)] + rest, "<>");
    TakeOne(b, s, Sign(r.sign), [Word(r.file)] + rest);
    HereInside(b, s, [Sign(r.sign)] + ([Word(r.file)] + rest));
    var op := GetToken(b, s);
    HereInside(b, op.next, [Word(r.file)] + rest);
    TakeOne(b, op.next, Word(r.file), rest);
    var file := GetToken(b, op.next);
    span, s' := Span(file.q, file.eq), file.next;
  }

  lemma HereInside(b: string, s: nat, toks: seq<Tok>)
    requires Here(b, s, toks)
    ensures CString(b) && s <= |b|
  {
  }

  lemma IntosEnd(b: string, s: nat, rs: Redirs, rest: seq<Tok>)
    requires Here(b, s, rest) && (rest != [] ==> Spelling(rest[0]) != "" && Spelling(rest[0])[0] !in "<>")
    ensures ParseRedirs(b, s, rs) == Some((rs, Skip(b, s))) && Here(b, Skip(b, s), rest)
  {
    hide Peek, Here, Skip, Spelling;
    HereInside(b, s, rest);
    Look(b, s, rest, "<>");
  }

  /** The redirections read so far, around a command. */
  function WrapTexts(b: string, c: Cmd<string>, rs: Redirs): Cmd<string> {
    if rs == [] then c else Redir(WrapTexts(b, c, rs[..|rs| - 1]), Text(b, rs[|rs| - 1].0), rs[|rs| - 1].1)
  }

  lemma {:induction false} WrapWords(b: string, c: Cmd<Span>, rs: Redirs)
    ensures Words(b, Wrap(c, rs)) == WrapTexts(b, Words(b, c), rs)
  {
    if rs != [] {
      WrapWords(b, c, rs[..|rs| - 1]);
    }
  }

  lemma WrapNext(b: string, c: Cmd<string>, rs: Redirs, span: Span, r: Into)
    requires Text(b, span) == r.file
    ensures WrapTexts(b, c, rs + [(span, ModeOf(r))]) == Around(WrapTexts(b, c, rs), r)
  {
    assert (rs + [(span, ModeOf(r))])[..|rs|] == rs;
  }

  /** The redirections behind a parenthesis. */
  lemma {:induction false} IntosRead(b: string, s: nat, done: Redirs, c: Cmd<string>, rs: seq<Into>, rest: seq<Tok>)
    requires Here(b, s, IntosToks(rs) + rest) && Follows(rest, "|)&;") && forall i :: 0 <= i < |rs| ==> IsInto(rs[i])
    ensures var r := ParseRedirs(b, s, done);
      r.Some? && Here(b, r.value.1, rest) && WrapTexts(b, c, r.value.0) == AroundAll(WrapTexts(b, c, done), rs)
    decreases |rs|
  {
    hide Here, ParseRedirs, IntoToks, WrapTexts, Text, Around;
    HereInside(b, s, IntosToks(rs) + rest);
    if rs == [] {
      assert IntosToks(rs) + rest == rest;
      IntosEnd(b, s, done, rest);
    } else {
      assert IntosToks(rs) + rest == IntoToks(rs[0]) + (IntosToks(rs[1..]) + rest);
      var span, s' := IntoRead(b, s, done, rs[0], IntosToks(rs[1..]) + rest);
      WrapNext(b, c, done, span, rs[0]);
      IntosRead(b, s', done + [(span, ModeOf(rs[0]))], c, rs[1..], rest);
    }
  }

  /** Redirections, then the words with redirections between them. */
  ghost function Onward(b: string, s: nat, argv: seq<Span>, rs: Redirs): Option<(Cmd<Span>, nat)>
    requires s <= |b| && CString(b)
  {
    var r := ParseRedirs(b, s, rs);
    if r.None? then None else ParseArgs(b, r.value.1, argv, r.value.0)
  }

  /** One word is read. */
  lemma ArgRead(b: string, s: nat, argv: seq<Span>, rs: Redirs, w: string, rest: seq<Tok>) returns (span: Span, s': nat)
    requires Here(b, s, [Word(w)] + rest) && |argv| < 9
    ensures Here(b, s', rest) && Text(b, span) == w
    ensures CString(b) && s <= |b| && Onward(b, s, argv, rs) == Onward(b, s', argv + [span], rs)
  {
    hide GetToken, Peek, Here, Text, Skip, Legal;
    HereInside(b, s, [Word(w)] + rest);
    WordStarts(b, s, w, rest);
    assert ([Word(w)] + rest)[0] == Word(w);
    IntosEnd(b, s, rs, [Word(w)] + rest);
    var u := Skip(b, s);
    HereInside(b, u, [Word(w)] + rest);
    LookOne(b, u, Word(w), rest, "|)&;");
    TakeOne(b, u, Word(w), rest);
    var t := GetToken(b, u);
    HereInside(b, t.next, rest);
    span, s' := Span(t.q, t.eq), t.next;
  }

  lemma WordStarts(b: string, s: nat, w: string, rest: seq<Tok>)
    requires Here(b, s, [Word(w)] + rest)
    ensures w != "" && w[0] !in "<>" && w[0] !in "|)&;" && w[0] != '('
  {
    var gaps := Gaps(b, s, [Word(w)] + rest);
    assert Legal(([Word(w)] + rest)[0]);
    assert w[0] !in SIGNS;
  }

  lemma TextsNext(b: string, argv: seq<Span>, span: Span, w: string)
    requires Text(b, span) == w
    ensures Texts(b, argv + [span]) == Texts(b, argv) + [w]
  {
  }

  /** The end of the words. */
  lemma ArgsEnd(b: string, s: nat, argv: seq<Span>, rs: Redirs, rest: seq<Tok>)
    requires Here(b, s, rest) && Follows(rest, "|)&;")
    ensures CString(b) && s <= |b| && Reads(b, Onward(b, s, argv, rs), WrapTexts(b, Exec(Texts(b, argv)), rs), rest)
  {
    hide GetToken, Peek, Here, Texts, Skip, Wrap, WrapTexts;
    HereInside(b, s, rest);
    IntosEnd(b, s, rs, rest);
    var u := Skip(b, s);
    HereInside(b, u, rest);
    Look(b, u, rest, "|)&;");
    WrapWords(b, Exec(argv), rs);
    if rest == [] {
      NoToken(b, u);
    }
  }

  lemma NoToken(b: string, u: nat)
    requires Here(b, u, [])
    ensures CString(b) && u <= |b| && GetToken(b, u).tok == '\0' && Here(b, GetToken(b, u).next, [])
  {
    HereInside(b, u, []);
    Look(b, u, [], "");
    Look(b, Skip(b, u), [], "");
  }

  /** A simple command as it is typed: its words and redirections in any order. */
  lemma {:induction false} PiecesRead(b: string, s: nat, ps: seq<Piece>, argv: seq<Span>, rs: Redirs, rest: seq<Tok>)
    requires Here(b, s, PiecesToks(ps) + rest) && Follows(rest, "|)&;") && |argv| + |Args(ps)| <= 9
    requires forall i :: 0 <= i < |ps| && ps[i].To? ==> IsInto(ps[i].into)
    ensures CString(b) && s <= |b|
    ensures Reads(b, Onward(b, s, argv, rs), AroundAll(WrapTexts(b, Exec(Texts(b, argv) + Args(ps)), rs), Intos(ps)), rest)
    decreases |ps|
  {
    hide Here, Onward, IntoToks, WrapTexts, Text, Texts, Around, Reads;
    HereInside(b, s, PiecesToks(ps) + rest);
    if ps == [] {
      assert PiecesToks(ps) + rest == rest;
      assert Texts(b, argv) + Args(ps) == Texts(b, argv);
      ArgsEnd(b, s, argv, rs, rest);
    } else if ps[0].Arg? {
      ArgPiece(b, s, ps, argv, rs, rest);
    } else {
      IntoPiece(b, s, ps, argv, rs, rest);
    }
  }

  lemma {:induction false} ArgPiece(b: string, s: nat, ps: seq<Piece>, argv: seq<Span>, rs: Redirs, rest: seq<Tok>)
    requires Here(b, s, PiecesToks(ps) + rest) && Follows(rest, "|)&;") && |argv| + |Args(ps)| <= 9 && ps != [] && ps[0].Arg?
    requires forall i :: 0 <= i < |ps| && ps[i].To? ==> IsInto(ps[i].into)
    ensures CString(b) && s <= |b|
    ensures Reads(b, Onward(b, s, argv, rs), AroundAll(WrapTexts(b, Exec(Texts(b, argv) + Args(ps)), rs), Intos(ps)), rest)
    decreases |ps|, 0
  {
    hide Here, Onward, IntoToks, WrapTexts, Text, Texts, AroundAll, Around, Reads, PiecesToks, Args, Intos, Follows;
    var w := ps[0].w;
    var more := PiecesToks(ps[1..]) + rest;
    ArgFirst(ps, rest);
    var span, s' := ArgRead(b, s, argv, rs, w, more);
    TextsNext(b, argv, span, w);
    JoinArgs(Texts(b, argv), w, Args(ps[1..]));
    PiecesRead(b, s', ps[1..], argv + [span], rs, rest);
  }

  lemma JoinArgs(done: seq<string>, w: string, rest: seq<string>)
    ensures done + ([w] + rest) == done + [w] + rest
  {
  }

  lemma ArgFirst(ps: seq<Piece>, rest: seq<Tok>)
    requires ps != [] && ps[0].Arg?
    ensures PiecesToks(ps) + rest == [Word(ps[0].w)] + (PiecesToks(ps[1..]) + rest)
    ensures Args(ps) == [ps[0].w] + Args(ps[1..]) && Intos(ps) == Intos(ps[1..])
  {
    hide Legal, IntoToks;
    var p1 := PiecesToks(ps[1..]);
    assert PiecesToks(ps) == [Word(ps[0].w)] + p1;
    AppendAssoc([Word(ps[0].w)], p1, rest);
    EmptyFirst(Intos(ps[1..]));
  }

  lemma AppendAssoc<T>(x: seq<T>, y: seq<T>, z: seq<T>)
    ensures x + y + z == x + (y + z)
  {
  }

  lemma EmptyFirst<T>(x: seq<T>)
    ensures [] + x == x
  {
  }

  lemma {:induction false} IntoPiece(b: string, s: nat, ps: seq<Piece>, argv: seq<Span>, rs: Redirs, rest: seq<Tok>)
    requires Here(b, s, PiecesToks(ps) + rest) && Follows(rest, "|)&;") && |argv| + |Args(ps)| <= 9 && ps != [] && ps[0].To?
    requires forall i :: 0 <= i < |ps| && ps[i].To? ==> IsInto(ps[i].into)
    ensures CString(b) && s <= |b|
    ensures Reads(b, Onward(b, s, argv, rs), AroundAll(WrapTexts(b, Exec(Texts(b, argv) + Args(ps)), rs), Intos(ps)), rest)
    decreases |ps|, 0
  {
    hide Here, ParseRedirs, ParseArgs, IntoToks, WrapTexts, Text, Texts, Around, Reads;
    var r := ps[0].into;
    var more := PiecesToks(ps[1..]) + rest;
    assert PiecesToks(ps) + rest == IntoToks(r) + more;
    assert Args(ps) == Args(ps[1..]) && Intos(ps) == [r] + Intos(ps[1..]);
    HereInside(b, s, IntoToks(r) + more);
    var span, s' := IntoRead(b, s, rs, r, more);
    HereInside(b, s', more);
    WrapNext(b, Exec(Texts(b, argv) + Args(ps)), rs, span, r);
    assert ([r] + Intos(ps[1..]))[1..] == Intos(ps[1..]);
    PiecesRead(b, s', ps[1..], argv, rs + [(span, ModeOf(r))], rest);
  }

  // ---------- commands, pipelines, lines ----------

  lemma {:induction false} SimpleRead(b: string, s: nat, c: Simple, rest: seq<Tok>)
    requires SimpleFits(c) && Here(b, s, SimpleToks(c) + rest) && Follows(rest, "|)&;")
    ensures CString(b) && s <= |b| && Reads(b, ParseExec(b, s), SimpleMeans(c), rest)
    decreases c, 0
  {
    hide Here, ParseExec, Reads;
    match c
    case Plain(ps) =>
      PlainRead(b, s, ps, rest);
    case Paren(line, rs) =>
      ParenRead(b, s, line, rs, rest);
  }

  lemma PlainRead(b: string, s: nat, ps: seq<Piece>, rest: seq<Tok>)
    requires SimpleFits(Plain(ps)) && Here(b, s, PiecesToks(ps) + rest) && Follows(rest, "|)&;")
    ensures CString(b) && s <= |b| && Reads(b, ParseExec(b, s), SimpleMeans(Plain(ps)), rest)
  {
    hide Here, Peek, ParseRedirs, ParseArgs, ParseBlock, Reads, Texts;
    PiecesRead(b, s, ps, [], [], rest);
    NoParen(b, s, ps, rest);
    assert Texts(b, []) + Args(ps) == Args(ps);
  }

  lemma NoParen(b: string, s: nat, ps: seq<Piece>, rest: seq<Tok>)
    requires SimpleFits(Plain(ps)) && Here(b, s, PiecesToks(ps) + rest) && Follows(rest, "|)&;")
    ensures CString(b) && s <= |b| && !Peek(b, s, "(")
  {
    hide Here, Peek;
    var toks := PiecesToks(ps) + rest;
    HereInside(b, s, toks);
    Look(b, s, toks, "(");
    if ps != [] && ps[0].Arg? {
      assert toks == [Word(ps[0].w)] + (PiecesToks(ps[1..]) + rest);
      WordStarts(b, s, ps[0].w, PiecesToks(ps[1..]) + rest);
    } else if ps != [] {
      assert toks[0] == Sign(ps[0].into.sign);
    }
  }

  lemma {:induction false} ParenRead(b: string, s: nat, line: Line, rs: seq<Into>, rest: seq<Tok>)
    requires LineFits(line) && (forall i :: 0 <= i < |rs| ==> IsInto(rs[i])) && Follows(rest, "|)&;")
    requires Here(b, s, SimpleToks(Paren(line, rs)) + rest)
    ensures CString(b) && s <= |b| && Reads(b, ParseExec(b, s), AroundAll(LineMeans(line), rs), rest)
    decreases line, 1
  {
    hide Here, Peek, GetToken, ParseRedirs, ParseLine, Text, Wrap, WrapTexts;
    var inner, after := [Sign(")")] + (IntosToks(rs) + rest), IntosToks(rs) + rest;
    assert SimpleToks(Paren(line, rs)) + rest == [Sign("(")] + (LineToks(line) + inner);
    LookOne(b, s, Sign("("), LineToks(line) + inner, "(");
    TakeOne(b, s, Sign("("), LineToks(line) + inner);
    HereInside(b, s, [Sign("(")] + (LineToks(line) + inner));
    var s1 := GetToken(b, s).next;
    LineRead(b, s1, line, inner);
    var l := ParseLine(b, s1).value;
    HereInside(b, l.1, inner);
    LookOne(b, l.1, Sign(")"), after, ")");
    TakeOne(b, l.1, Sign(")"), after);
    var s2 := GetToken(b, l.1).next;
    HereInside(b, s2, after);
    IntosRead(b, s2, [], Words(b, l.0), rs, rest);
    var ws := ParseRedirs(b, s2, []).value;
    WrapWords(b, l.0, ws.0);
    NoWrap(b, Words(b, l.0));
  }

  lemma NoWrap(b: string, c: Cmd<string>)
    ensures WrapTexts(b, c, []) == c
  {
  }

  lemma {:induction false} PipeRead(b: string, s: nat, p: Pipeline, rest: seq<Tok>)
    requires PipeFits(p) && Here(b, s, PipeToks(p) + rest) && Follows(rest, ")&;")
    ensures CString(b) && s <= |b| && Reads(b, ParsePipe(b, s), PipeMeans(p), rest)
    decreases p, 0
  {
    hide Here, Peek, GetToken, ParseExec, SimpleMeans;
    match p
    case One(c) =>
      SimpleRead(b, s, c, rest);
      var l := ParseExec(b, s).value;
      HereInside(b, l.1, rest);
      Look(b, l.1, rest, "|");
    case Piped(c, next) =>
      var more := [Sign("|")] + (PipeToks(next) + rest);
      assert PipeToks(p) + rest == SimpleToks(c) + more;
      SimpleRead(b, s, c, more);
      var l := ParseExec(b, s).value;
      HereInside(b, l.1, more);
      LookOne(b, l.1, Sign("|"), PipeToks(next) + rest, "|");
      TakeOne(b, l.1, Sign("|"), PipeToks(next) + rest);
      PipeRead(b, GetToken(b, l.1).next, next, rest);
  }

  lemma {:induction false} AndsRead(b: string, c: Cmd<Span>, s: nat, n: nat, rest: seq<Tok>)
    requires Here(b, s, Ands(n) + rest) && Follows(rest, ");")
    ensures CString(b) && s <= |b|
    ensures var r := ParseBacks(b, c, s); Here(b, r.1, rest) && Words(b, r.0) == InBack(Words(b, c), n)
    decreases n
  {
    hide Here, Peek, GetToken;
    HereInside(b, s, Ands(n) + rest);
    if n == 0 {
      assert Ands(n) + rest == rest;
      Look(b, s, rest, "&");
    } else {
      assert Ands(n) + rest == [Sign("&")] + (Ands(n - 1) + rest);
      LookOne(b, s, Sign("&"), Ands(n - 1) + rest, "&");
      TakeOne(b, s, Sign("&"), Ands(n - 1) + rest);
      AndsRead(b, Back(c), GetToken(b, s).next, n - 1, rest);
    }
  }

  lemma {:induction false} LineRead(b: string, s: nat, l: Line, rest: seq<Tok>)
    requires LineFits(l) && Here(b, s, LineToks(l) + rest) && Follows(rest, ")")
    ensures CString(b) && s <= |b| && Reads(b, ParseLine(b, s), LineMeans(l), rest)
    decreases l, 0
  {
    hide Here, Peek, GetToken, ParsePipe, ParseBacks, PipeMeans, InBack, Ands;
    var p, n := l.pipe, l.backs;
    match l
    case Last(_, _) =>
      assert LineToks(l) + rest == PipeToks(p) + (Ands(n) + rest);
      var u := PipeAnds(b, s, p, n, rest);
      Look(b, u.1, rest, ";");
    case Then(_, _, next) =>
      var more := [Sign(";")] + (LineToks(next) + rest);
      assert LineToks(l) + rest == PipeToks(p) + (Ands(n) + more);
      var u := PipeAnds(b, s, p, n, more);
      LookOne(b, u.1, Sign(";"), LineToks(next) + rest, ";");
      TakeOne(b, u.1, Sign(";"), LineToks(next) + rest);
      LineRead(b, GetToken(b, u.1).next, next, rest);
  }

  /** A pipeline and its `&`s. */
  lemma {:induction false} PipeAnds(b: string, s: nat, p: Pipeline, n: nat, rest: seq<Tok>) returns (u: (Cmd<Span>, nat))
    requires PipeFits(p) && Here(b, s, PipeToks(p) + (Ands(n) + rest)) && Follows(rest, ");")
    ensures CString(b) && s <= |b| && ParsePipe(b, s).Some? && ParsePipe(b, s).value.1 <= |b|
    ensures u == ParseBacks(b, ParsePipe(b, s).value.0, ParsePipe(b, s).value.1)
    ensures u.1 <= |b| && Here(b, u.1, rest) && Words(b, u.0) == InBack(PipeMeans(p), n)
    decreases p, 1
  {
    hide Here, ParsePipe, ParseBacks, PipeMeans, InBack;
    assert n > 0 ==> (Ands(n) + rest)[0] == Sign("&");
    assert n == 0 ==> Ands(n) + rest == rest;
    PipeRead(b, s, p, Ands(n) + rest);
    var l := ParsePipe(b, s).value;
    HereInside(b, l.1, Ands(n) + rest);
    AndsRead(b, l.0, l.1, n, rest);
    u := ParseBacks(b, l.0, l.1);
    HereInside(b, u.1, rest);
  }

  // ---------- the law ----------

  lemma {:induction false} SourceIsCString(gaps: seq<string>, toks: seq<Tok>)
    requires Gapped(gaps, toks)
    ensures CString(Source(gaps, toks))
    decreases |toks|
  {
    assert Blank(gaps[0]);
    if toks != [] {
      assert Legal(toks[0]);
      SourceIsCString(gaps[1..], toks[1..]);
    }
  }

  /** A line as it is typed, with any blanks between its tokens, is parsed to the command it means. */
  lemma SourceParses(line: Line, gaps: seq<string>)
    requires LineFits(line) && Gapped(gaps, LineToks(line))
    ensures var b := Source(gaps, LineToks(line));
      CString(b) && ParseCmd(b).Some? && Words(b, ParseCmd(b).value) == LineMeans(line)
  {
    hide LineMeans, LineToks, Source, ParseLine;
    var b := Source(gaps, LineToks(line));
    SourceIsCString(gaps, LineToks(line));
    assert Spelled(b, 0, gaps, LineToks(line));
    assert LineToks(line) + [] == LineToks(line);
    LineRead(b, 0, line, []);
    Look(b, ParseLine(b, 0).value.1, [], "");
  }

  /** `ls>o`: the redirection is kept. */
  lemma ListInto()
    ensures CString("ls>o") && ParseCmd("ls>o").Some? && Words("ls>o", ParseCmd("ls>o").value) == Redir(Exec(["ls"]), "o", Out)
  {
    var pieces := [Arg("ls"), To(Into(">", "o"))];
    var toks := [Word("ls"), Sign(">"), Word("o")];
    var line := Last(One(Plain(pieces)), 0);
    ListPieces(pieces);
    assert LineToks(line) == toks + [] == toks;
    var gaps := ["", "", "", ""];
    ListTyped(gaps, toks);
    SourceParses(line, gaps);
  }

  lemma ListPieces(ps: seq<Piece>)
    requires ps == [Arg("ls"), To(Into(">", "o"))]
    ensures PiecesToks(ps) == [Word("ls"), Sign(">"), Word("o")] && Args(ps) == ["ls"] && Intos(ps) == [Into(">", "o")]
  {
    assert ps[1..] == [To(Into(">", "o"))] && ps[1..][1..] == [];
    assert PiecesToks(ps[1..]) == [Sign(">"), Word("o")];
    assert Args(ps[1..]) == [] && Intos(ps[1..]) == [Into(">", "o")];
  }

  lemma ListTyped(gaps: seq<string>, toks: seq<Tok>)
    requires gaps == ["", "", "", ""] && toks == [Word("ls"), Sign(">"), Word("o")]
    ensures Gapped(gaps, toks) && Source(gaps, toks) == "ls>o"
  {
    assert gaps[1..] == ["", "", ""] && toks[1..] == [Sign(">"), Word("o")];
    assert gaps[1..][1..] == ["", ""] && toks[1..][1..] == [Word("o")];
    assert gaps[1..][1..][1..] == [""] && toks[1..][1..][1..] == [];
    LastGap([""]);
    hide Blank, Legal, Sticks;
    assert Source(gaps[1..][1..], toks[1..][1..]) == "o";
    assert Source(gaps[1..], toks[1..]) == ">o";
    ListGapped(gaps, toks);
  }

  lemma LastGap(gaps: seq<string>)
    requires |gaps| == 1
    ensures Source(gaps, []) == gaps[0]
  {
  }

  lemma ListGapped(gaps: seq<string>, toks: seq<Tok>)
    requires gaps == ["", "", "", ""] && toks == [Word("ls"), Sign(">"), Word("o")]
    ensures Gapped(gaps, toks)
  {
    hide Sticks;
    GapTok([""], Word("o"), []);
    assert [""] + [""] == ["", ""] && [Word("o")] + [] == [Word("o")];
    OneApart();
    GapTok(["", ""], Sign(">"), [Word("o")]);
    assert [""] + ["", ""] == ["", "", ""] && [Sign(">")] + [Word("o")] == [Sign(">"), Word("o")];
    GapTok(["", "", ""], Word("ls"), [Sign(">"), Word("o")]);
    assert [""] + ["", "", ""] == gaps && [Word("ls")] + [Sign(">"), Word("o")] == toks;
  }

  lemma OneApart()
    ensures !Sticks(Sign(">"), Word("o")) && !Sticks(Word("ls"), Sign(">"))
  {
  }

  // ---------- the parser accepts nothing else ----------

  lemma {:induction false} SkippedBlank(b: string, s: nat, i: nat)
    requires s <= |b| && s <= i < Skip(b, s)
    ensures b[i] in BLANKS
    decreases |b| - s
  {
    if s < i {
      SkippedBlank(b, s + 1, i);
    }
  }

  lemma GapBlank(b: string, s: nat)
    requires s <= |b|
    ensures Blank(b[s..Skip(b, s)])
  {
    var g := b[s..Skip(b, s)];
    forall i | 0 <= i < |g|
      ensures g[i] in BLANKS
    {
      SkippedBlank(b, s, s + i);
    }
  }

  lemma GapBefore(b: string, s: nat, j: nat, gaps: seq<string>, toks: seq<Tok>)
    requires s <= j && Spelled(b, j, gaps, toks) && Blank(b[s..j])
    ensures Spelled(b, s, [b[s..j] + gaps[0]] + gaps[1..], toks)
  {
    var gaps' := [b[s..j] + gaps[0]] + gaps[1..];
    assert b[s..] == b[s..j] + b[j..];
    Widened(gaps, toks, b[s..j]);
    hide Gapped, Source;
  }

  lemma Widened(gaps: seq<string>, toks: seq<Tok>, g: string)
    requires Gapped(gaps, toks) && Blank(g)
    ensures var gaps' := [g + gaps[0]] + gaps[1..]; Gapped(gaps', toks) && Source(gaps', toks) == g + Source(gaps, toks)
  {
    hide Legal, Spelling, Sticks, Blank, Source;
    BlankJoin(g, gaps[0]);
    WidenedSource(gaps, toks, g);
  }

  lemma WidenedSource(gaps: seq<string>, toks: seq<Tok>, g: string)
    requires |gaps| == |toks| + 1
    ensures Source([g + gaps[0]] + gaps[1..], toks) == g + Source(gaps, toks)
  {
    hide Spelling;
    var gaps' := [g + gaps[0]] + gaps[1..];
    assert gaps'[1..] == gaps[1..];
    if toks != [] {
      AppendAssoc(g, gaps[0], Spelling(toks[0]) + Source(gaps[1..], toks[1..]));
    }
  }

  lemma BlankJoin(g: string, h: string)
    requires Blank(g) && Blank(h)
    ensures Blank(g + h)
  {
  }

  lemma Unskip(b: string, s: nat, toks: seq<Tok>)
    requires CString(b) && s <= |b| && Here(b, Skip(b, s), toks)
    ensures Here(b, s, toks)
  {
    hide Skip, Source, Blank, Legal, Sticks;
    var j := Skip(b, s);
    var gaps := Gaps(b, j, toks);
    GapBlank(b, s);
    GapBefore(b, s, j, gaps, toks);
    assert Spelled(b, s, [b[s..j] + gaps[0]] + gaps[1..], toks);
  }

  lemma TokBefore(b: string, j: nat, e: nat, t: Tok, gaps: seq<string>, toks: seq<Tok>)
    requires j <= e && Spelled(b, e, gaps, toks) && b[j..e] == Spelling(t) && Legal(t)
    requires toks != [] && Sticks(t, toks[0]) ==> gaps[0] != ""
    ensures Spelled(b, j, [""] + gaps, [t] + toks)
  {
    hide Legal, Spelling, Sticks, Source, Blank;
    assert b[j..] == b[j..e] + b[e..];
    SourceTok(gaps, t, toks);
    GapTok(gaps, t, toks);
  }

  lemma SourceTok(gaps: seq<string>, t: Tok, toks: seq<Tok>)
    requires |gaps| == |toks| + 1
    ensures Source([""] + gaps, [t] + toks) == Spelling(t) + Source(gaps, toks)
  {
    hide Spelling;
    assert ([""] + gaps)[1..] == gaps && ([t] + toks)[1..] == toks;
    EmptyFirst(Spelling(t) + Source(gaps, toks));
  }

  lemma GapTok(gaps: seq<string>, t: Tok, toks: seq<Tok>)
    requires Gapped(gaps, toks) && Legal(t) && (toks != [] && Sticks(t, toks[0]) ==> gaps[0] != "")
    ensures Gapped([""] + gaps, [t] + toks)
  {
    hide Legal, Sticks;
    var all, wide := [t] + toks, [""] + gaps;
    assert forall k :: 0 <= k < |wide| ==> wide[k] == if k == 0 then "" else gaps[k - 1];
    forall k | 0 < k < |all| && Sticks(all[k - 1], all[k])
      ensures wide[k] != ""
    {
      assert all[k] == toks[k - 1] && wide[k] == gaps[k - 1];
      assert k > 1 ==> all[k - 1] == toks[k - 2];
    }
  }

  /** The token that `gettoken` reads, taken from the buffer. */
  function TokenOf(b: string, g: Token): Tok
    requires g.q <= g.eq <= |b|
  {
    if g.tok == 'a' then Word(b[g.q..g.eq]) else Sign(b[g.q..g.eq])
  }

  lemma TokenIs(b: string, s: nat)
    requires CString(b) && s <= |b| && GetToken(b, s).tok != '\0'
    ensures var g := GetToken(b, s); var t := TokenOf(b, g);
      && Legal(t) && Code(t) == g.tok && g.q == Skip(b, s) && g.next == Skip(b, g.eq) && g.q < g.eq <= |b|
      && (t.Word? && g.eq < |b| ==> !InWord(b[g.eq])) && (t == Sign(">") && g.eq < |b| ==> b[g.eq] != '>')
      && (t.Sign? ==> t == Sign(if g.tok == '+' then ">>" else [g.tok]))
  {
    var g := GetToken(b, s);
    if g.tok == 'a' {
      var w := b[g.q..g.eq];
      assert forall i :: 0 <= i < |w| ==> w[i] == b[g.q + i] && InWord(b[g.q + i]);
    } else if g.tok == '+' {
      assert b[g.q..g.eq] == ">>";
    } else {
      assert b[g.q..g.eq] == [g.tok];
    }
  }

  /** The token `gettoken` takes stands before the tokens behind it. */
  lemma Untake(b: string, s: nat, rest: seq<Tok>)
    requires CString(b) && s <= |b| && GetToken(b, s).tok != '\0' && Here(b, GetToken(b, s).next, rest)
    ensures Here(b, s, [TokenOf(b, GetToken(b, s))] + rest)
  {
    hide GetToken, Skip, Spelled, Legal, Code, TokenOf;
    var g := GetToken(b, s);
    var t := TokenOf(b, g);
    TokenIs(b, s);
    SpelledText(b, g);
    Unskip(b, g.eq, rest);
    var gaps := Gaps(b, g.eq, rest);
    Stuck(b, g.eq, t, gaps, rest);
    TokBefore(b, g.q, g.eq, t, gaps, rest);
    Unskip(b, s, [t] + rest);
  }

  lemma SpelledText(b: string, g: Token)
    requires g.q <= g.eq <= |b|
    ensures Spelling(TokenOf(b, g)) == b[g.q..g.eq]
  {
  }

  lemma Stuck(b: string, e: nat, t: Tok, gaps: seq<string>, rest: seq<Tok>)
    requires Spelled(b, e, gaps, rest)
    requires (t.Word? && e < |b| ==> !InWord(b[e])) && (t == Sign(">") && e < |b| ==> b[e] != '>')
    ensures rest != [] && Sticks(t, rest[0]) ==> gaps[0] != ""
  {
    if rest != [] && gaps[0] == "" {
      FirstAt(b, e, gaps, rest);
      assert Legal(rest[0]);
    }
    hide Source, Blank;
  }

  lemma FirstAt(b: string, e: nat, gaps: seq<string>, rest: seq<Tok>)
    requires Spelled(b, e, gaps, rest) && rest != [] && gaps[0] == ""
    ensures e < |b| && Spelling(rest[0]) != "" && b[e] == Spelling(rest[0])[0]
  {
    FirstIsSolid(gaps, rest);
    assert b[e..] == "" + FromFirst(gaps, rest) == FromFirst(gaps, rest);
    assert b[e] == b[e..][0];
    hide Blank, Legal, Spelling, Sticks;
  }

  lemma PeekedSign(b: string, s: nat, chars: string)
    requires CString(b) && s <= |b| && Peek(b, s, chars) && forall i :: 0 <= i < |chars| ==> IsSymbol(chars[i])
    ensures var g := GetToken(b, s); g.tok in chars || (g.tok == '+' && '>' in chars)
    ensures GetToken(b, s).tok != '\0' && GetToken(b, s).tok != 'a'
  {
    hide Skip;
  }

  /** One sign, read after a `peek`. */
  lemma Unsign(b: string, s: nat, sign: char, rest: seq<Tok>)
    requires CString(b) && s <= |b| && Peek(b, s, [sign]) && sign in SIGNS && sign != '>' && Here(b, GetToken(b, s).next, rest)
    ensures Here(b, s, [Sign([sign])] + rest)
  {
    hide GetToken, Skip, Here, Peek;
    PeekedSign(b, s, [sign]);
    TokenIs(b, s);
    Untake(b, s, rest);
  }

  /** The redirections that were read. */
  lemma {:induction false} IntosBuilt(b: string, s: nat, done: Redirs, rest: seq<Tok>) returns (rs: seq<Into>)
    requires CString(b) && s <= |b| && ParseRedirs(b, s, done).Some? && Here(b, ParseRedirs(b, s, done).value.1, rest)
    ensures (forall i :: 0 <= i < |rs| ==> IsInto(rs[i])) && Here(b, s, IntosToks(rs) + rest)
    decreases |b| - s
  {
    hide GetToken, Skip, Here, Peek;
    if !Peek(b, s, "<>") {
      rs := [];
      assert IntosToks(rs) + rest == rest;
      Unskip(b, s, rest);
    } else {
      var op := GetToken(b, s);
      var file := GetToken(b, op.next);
      var more := IntosBuilt(b, file.next, done + [(Span(file.q, file.eq), if op.tok == '<' then In else Out)], rest);
      var into := IntoBuilt(b, s, IntosToks(more) + rest);
      rs := [into] + more;
      assert rs[1..] == more;
      assert IntosToks(rs) + rest == IntoToks(into) + (IntosToks(more) + rest);
    }
  }

  lemma IntoBuilt(b: string, s: nat, rest: seq<Tok>) returns (r: Into)
    requires CString(b) && s <= |b| && Peek(b, s, "<>")
    requires var op := GetToken(b, s); GetToken(b, op.next).tok == 'a' && Here(b, GetToken(b, op.next).next, rest)
    ensures IsInto(r) && Here(b, s, IntoToks(r) + rest)
  {
    hide GetToken, Skip, Here, Peek;
    var op := GetToken(b, s);
    PeekedSign(b, s, "<>");
    TokenIs(b, s);
    Untake(b, op.next, rest);
    var file := TokenOf(b, GetToken(b, op.next));
    Untake(b, s, [file] + rest);
    r := Into(TokenOf(b, op).s, file.w);
    assert [Sign(r.sign)] + ([Word(r.file)] + rest) == IntoToks(r) + rest;
  }

  function Tos(rs: seq<Into>): seq<Piece> {
    if rs == [] then [] else [To(rs[0])] + Tos(rs[1..])
  }

  predicate IntosFit(ps: seq<Piece>) {
    forall i :: 0 <= i < |ps| && ps[i].To? ==> IsInto(ps[i].into)
  }

  lemma {:induction false} TosBefore(rs: seq<Into>, ps: seq<Piece>)
    requires (forall i :: 0 <= i < |rs| ==> IsInto(rs[i])) && IntosFit(ps)
    ensures var all := Tos(rs) + ps;
      PiecesToks(all) == IntosToks(rs) + PiecesToks(ps) && Args(all) == Args(ps) && IntosFit(all)
    decreases |rs|
  {
    hide IntosFit, IsInto;
    if rs == [] {
      EmptyFirst(ps);
      EmptyFirst(PiecesToks(ps));
    } else {
      var tail := Tos(rs[1..]) + ps;
      TosBefore(rs[1..], ps);
      AppendAssoc([To(rs[0])], Tos(rs[1..]), ps);
      AppendAssoc(IntoToks(rs[0]), IntosToks(rs[1..]), PiecesToks(ps));
      ToBefore(rs[0], tail);
    }
  }

  lemma ToBefore(r: Into, ps: seq<Piece>)
    requires IsInto(r) && IntosFit(ps)
    ensures var all := [To(r)] + ps; PiecesToks(all) == IntoToks(r) + PiecesToks(ps) && Args(all) == Args(ps) && IntosFit(all)
  {
    hide IsInto, IntoToks;
    assert ([To(r)] + ps)[1..] == ps;
    EmptyFirst(Args(ps));
  }

  /** The words and redirections that were read. */
  lemma {:induction false} PiecesBuilt(b: string, s: nat, argv: seq<Span>, rs: Redirs, rest: seq<Tok>) returns (ps: seq<Piece>)
    requires CString(b) && s <= |b| && |argv| <= 9
    requires ParseArgs(b, s, argv, rs).Some? && Here(b, ParseArgs(b, s, argv, rs).value.1, rest)
    ensures IntosFit(ps) && |argv| + |Args(ps)| <= 9 && Here(b, s, PiecesToks(ps) + rest)
    decreases |b| - s
  {
    hide GetToken, Skip, Here, Peek, Wrap, ParseRedirs, IntosFit, PiecesToks, Args;
    var t := GetToken(b, s);
    if Peek(b, s, "|)&;") || t.tok == '\0' {
      ps := [];
      NoPieces(rest);
      if !Peek(b, s, "|)&;") {
        EndSkipped(b, s);
      }
      Unskip(b, s, rest);
    } else {
      var more := ParseRedirs(b, t.next, rs).value;
      var after := PiecesBuilt(b, more.1, argv + [Span(t.q, t.eq)], more.0, rest);
      var intos := IntosBuilt(b, t.next, rs, PiecesToks(after) + rest);
      Untake(b, s, IntosToks(intos) + (PiecesToks(after) + rest));
      ps := ArgBuilt(b[t.q..t.eq], intos, after, rest);
    }
  }

  lemma EndSkipped(b: string, s: nat)
    requires CString(b) && s <= |b| && GetToken(b, s).tok == '\0'
    ensures GetToken(b, s).next == Skip(b, s)
  {
  }

  lemma NoPieces(rest: seq<Tok>)
    ensures IntosFit([]) && Args([]) == [] && PiecesToks([]) + rest == rest
  {
  }

  lemma ArgBuilt(w: string, intos: seq<Into>, after: seq<Piece>, rest: seq<Tok>) returns (ps: seq<Piece>)
    requires (forall i :: 0 <= i < |intos| ==> IsInto(intos[i])) && IntosFit(after)
    ensures IntosFit(ps) && |Args(ps)| == 1 + |Args(after)|
    ensures PiecesToks(ps) + rest == [Word(w)] + (IntosToks(intos) + (PiecesToks(after) + rest))
  {
    hide Tos, IntosToks, IsInto, PiecesToks, Args;
    var tail := Tos(intos) + after;
    TosBefore(intos, after);
    ps := [Arg(w)] + tail;
    ArgBefore(w, tail);
    AppendAssoc([Word(w)], PiecesToks(tail), rest);
    AppendAssoc(IntosToks(intos), PiecesToks(after), rest);
  }

  lemma ArgBefore(w: string, ps: seq<Piece>)
    requires IntosFit(ps)
    ensures var all := [Arg(w)] + ps; PiecesToks(all) == [Word(w)] + PiecesToks(ps) && |Args(all)| == 1 + |Args(ps)| && IntosFit(all)
  {
    assert ([Arg(w)] + ps)[1..] == ps;
  }

  lemma {:induction false} SimpleBuilt(b: string, s: nat, rest: seq<Tok>) returns (c: Simple)
    requires CString(b) && s <= |b| && ParseExec(b, s).Some? && Here(b, ParseExec(b, s).value.1, rest)
    ensures SimpleFits(c) && Here(b, s, SimpleToks(c) + rest)
    decreases |b| - s, 1
  {
    hide GetToken, Skip, Here, Peek, ParseBlock, ParseRedirs, ParseArgs, PiecesToks, Args, IntosToks;
    if Peek(b, s, "(") {
      c := ParenBuilt(b, s, rest);
    } else {
      var first := ParseRedirs(b, s, []).value;
      var after := PiecesBuilt(b, first.1, [], first.0, rest);
      var intos := IntosBuilt(b, s, [], PiecesToks(after) + rest);
      TosBefore(intos, after);
      var ps := Tos(intos) + after;
      c := Plain(ps);
      assert PiecesToks(ps) + rest == IntosToks(intos) + (PiecesToks(after) + rest);
    }
  }

  lemma {:induction false} ParenBuilt(b: string, s: nat, rest: seq<Tok>) returns (c: Simple)
    requires CString(b) && s <= |b| && ParseBlock(b, s).Some? && Here(b, ParseBlock(b, s).value.1, rest)
    ensures SimpleFits(c) && Here(b, s, SimpleToks(c) + rest)
    decreases |b| - s, 0
  {
    SignMoves(b, s, "(");
    hide GetToken, Skip, Here, Peek, ParseLine, ParseRedirs, IntosToks, LineToks, LineFits, SimpleToks, Wrap;
    var s1 := GetToken(b, s).next;
    var inside := ParseLine(b, s1).value;
    var s2 := GetToken(b, inside.1).next;
    var intos := IntosBuilt(b, s2, [], rest);
    Unsign(b, inside.1, ')', IntosToks(intos) + rest);
    var inner := [Sign(")")] + (IntosToks(intos) + rest);
    var line := LineBuilt(b, s1, inner);
    Unsign(b, s, '(', LineToks(line) + inner);
    c := Paren(line, intos);
    ParenToks(line, intos, rest);
  }

  lemma ParenToks(line: Line, rs: seq<Into>, rest: seq<Tok>)
    ensures SimpleToks(Paren(line, rs)) + rest == [Sign("(")] + (LineToks(line) + ([Sign(")")] + (IntosToks(rs) + rest)))
  {
    hide LineToks, IntosToks;
  }

  lemma SignMoves(b: string, s: nat, chars: string)
    requires CString(b) && s <= |b| && Peek(b, s, chars)
    ensures s < GetToken(b, s).next
  {
  }

  lemma {:induction false} PipeBuilt(b: string, s: nat, rest: seq<Tok>) returns (p: Pipeline)
    requires CString(b) && s <= |b| && ParsePipe(b, s).Some? && Here(b, ParsePipe(b, s).value.1, rest)
    ensures PipeFits(p) && Here(b, s, PipeToks(p) + rest)
    decreases |b| - s, 2
  {
    hide GetToken, Skip, Here, Peek, ParseExec, SimpleToks, SimpleFits;
    var left := ParseExec(b, s).value;
    if !Peek(b, left.1, "|") {
      Unskip(b, left.1, rest);
      var c := SimpleBuilt(b, s, rest);
      p := One(c);
    } else {
      SignMoves(b, left.1, "|");
      var next := PipeBuilt(b, GetToken(b, left.1).next, rest);
      Unsign(b, left.1, '|', PipeToks(next) + rest);
      var more := [Sign("|")] + (PipeToks(next) + rest);
      var c := SimpleBuilt(b, s, more);
      p := Piped(c, next);
      assert PipeToks(p) + rest == SimpleToks(c) + more;
    }
  }

  lemma {:induction false} AndsBuilt(b: string, c: Cmd<Span>, s: nat, rest: seq<Tok>) returns (n: nat)
    requires CString(b) && s <= |b| && Here(b, ParseBacks(b, c, s).1, rest)
    ensures Here(b, s, Ands(n) + rest)
    decreases |b| - s
  {
    hide GetToken, Skip, Here, Peek;
    if Peek(b, s, "&") {
      SignMoves(b, s, "&");
      var m := AndsBuilt(b, Back(c), GetToken(b, s).next, rest);
      Unsign(b, s, '&', Ands(m) + rest);
      n := m + 1;
      assert Ands(n) + rest == [Sign("&")] + (Ands(m) + rest);
    } else {
      n := 0;
      assert Ands(n) + rest == rest;
      Unskip(b, s, rest);
    }
  }

  lemma {:induction false} LineBuilt(b: string, s: nat, rest: seq<Tok>) returns (l: Line)
    requires CString(b) && s <= |b| && ParseLine(b, s).Some? && Here(b, ParseLine(b, s).value.1, rest)
    ensures LineFits(l) && Here(b, s, LineToks(l) + rest)
    decreases |b| - s, 3
  {
    hide GetToken, Skip, Here, Peek, ParsePipe, ParseBacks, PipeToks, PipeFits, Ands;
    var first := ParsePipe(b, s).value;
    var u := ParseBacks(b, first.0, first.1);
    if !Peek(b, u.1, ";") {
      var n := AndsBuilt(b, first.0, first.1, rest);
      var p := PipeBuilt(b, s, Ands(n) + rest);
      l := Last(p, n);
      assert LineToks(l) + rest == PipeToks(p) + (Ands(n) + rest);
    } else {
      SignMoves(b, u.1, ";");
      var next := LineBuilt(b, GetToken(b, u.1).next, rest);
      Unsign(b, u.1, ';', LineToks(next) + rest);
      var more := [Sign(";")] + (LineToks(next) + rest);
      var n := AndsBuilt(b, first.0, first.1, more);
      var p := PipeBuilt(b, s, Ands(n) + more);
      l := Then(p, n, next);
      assert LineToks(l) + rest == PipeToks(p) + (Ands(n) + more);
    }
  }

  /** The parser accepts a text exactly when it is a line of the language with some blanks between
      its tokens, and then it gives the command which that line means. */
  lemma AcceptsExactly(b: string)
    requires CString(b)
    ensures ParseCmd(b).Some? <==> exists line: Line, gaps: seq<string> :: IsTyped(b, line, gaps)
    ensures forall line: Line, gaps: seq<string> :: IsTyped(b, line, gaps) ==>
              ParseCmd(b).Some? && Words(b, ParseCmd(b).value) == LineMeans(line)
  {
    hide ParseLine, LineMeans, LineToks, LineFits, Source;
    forall line: Line, gaps: seq<string> | IsTyped(b, line, gaps)
      ensures ParseCmd(b).Some? && Words(b, ParseCmd(b).value) == LineMeans(line)
    {
      SourceParses(line, gaps);
    }
    if ParseCmd(b).Some? {
      var r := ParseLine(b, 0).value;
      assert Spelled(b, |b|, [""], []) by { LastGap([""]); }
      Unskip(b, r.1, []);
      var line := LineBuilt(b, 0, []);
      assert LineToks(line) + [] == LineToks(line);
      var gaps := Gaps(b, 0, LineToks(line));
      assert b[0..] == b;
      assert IsTyped(b, line, gaps);
    }
  }

  /** The text is this line, typed with these gaps. */
  predicate IsTyped(b: string, line: Line, gaps: seq<string>) {
    LineFits(line) && Gapped(gaps, LineToks(line)) && b == Source(gaps, LineToks(line))
  }
}
