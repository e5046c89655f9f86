/** The parser as it runs over the line buffer, and `nulterminate`, which cuts the words off in
    place: every string of the finished tree is exactly its source word. */
module ShellParser {
  import opened Options
  import opened Shell
  import opened ShellRoundTrip

  // ---------- every span is a whole word ----------

  predicate RedirsSpanned(b: string, rs: Redirs) {
    forall i :: 0 <= i < |rs| ==> IsWord(b, rs[i].0.q, rs[i].0.eq)
  }

  lemma {:induction false} WrapSpanned(b: string, c: Cmd<Span>, rs: Redirs)
    requires Spanned(b, c) && RedirsSpanned(b, rs)
    ensures Spanned(b, Wrap(c, rs))
  {
    if rs != [] {
      WrapSpanned(b, c, rs[..|rs| - 1]);
    }
  }

  lemma {:induction false} ParseRedirsSpanned(b: string, s: nat, rs: Redirs)
    requires s <= |b| && CString(b) && RedirsSpanned(b, rs)
    ensures var r := ParseRedirs(b, s, rs); r.Some? ==> RedirsSpanned(b, r.value.0)
    decreases |b| - s
  {
    if Peek(b, s, "<>") {
      var op := GetToken(b, s);
      var file := GetToken(b, op.next);
      if file.tok == 'a' {
        ParseRedirsSpanned(b, file.next, rs + [(Span(file.q, file.eq), if op.tok == '<' then In else Out)]);
      }
    }
  }

  lemma {:induction false} ParseArgsSpanned(b: string, s: nat, argv: seq<Span>, rs: Redirs)
    requires s <= |b| && CString(b) && RedirsSpanned(b, rs) && Spanned(b, Exec(argv))
    ensures var r := ParseArgs(b, s, argv, rs); r.Some? ==> Spanned(b, r.value.0)
    decreases |b| - s
  {
    WrapSpanned(b, Exec(argv), rs);
    if !Peek(b, s, "|)&;") {
      var t := GetToken(b, s);
      if t.tok == 'a' && |argv| + 1 < MAXARGS {
        var more := ParseRedirs(b, t.next, rs);
        ParseRedirsSpanned(b, t.next, rs);
        if more.Some? {
          ParseArgsSpanned(b, more.value.1, argv + [Span(t.q, t.eq)], more.value.0);
        }
      }
    }
  }

  lemma {:induction false} ParseExecSpanned(b: string, s: nat)
    requires s <= |b| && CString(b)
    ensures var r := ParseExec(b, s); r.Some? ==> Spanned(b, r.value.0)
    decreases |b| - s, 1
  {
    if Peek(b, s, "(") {
      ParseBlockSpanned(b, s);
    } else {
      var first := ParseRedirs(b, s, []);
      ParseRedirsSpanned(b, s, []);
      if first.Some? {
        ParseArgsSpanned(b, first.value.1, [], first.value.0);
      }
    }
  }

  lemma {:induction false} ParseBlockSpanned(b: string, s: nat)
    requires s <= |b| && CString(b)
    ensures var r := ParseBlock(b, s); r.Some? ==> Spanned(b, r.value.0)
    decreases |b| - s, 0
  {
    if Peek(b, s, "(") {
      var inside := ParseLine(b, GetToken(b, s).next);
      ParseLineSpanned(b, GetToken(b, s).next);
      if inside.Some? && Peek(b, inside.value.1, ")") {
        var rs := ParseRedirs(b, GetToken(b, inside.value.1).next, []);
        ParseRedirsSpanned(b, GetToken(b, inside.value.1).next, []);
        if rs.Some? {
          WrapSpanned(b, inside.value.0, rs.value.0);
        }
      }
    }
  }

  lemma {:induction false} ParsePipeSpanned(b: string, s: nat)
    requires s <= |b| && CString(b)
    ensures var r := ParsePipe(b, s); r.Some? ==> Spanned(b, r.value.0)
    decreases |b| - s, 2
  {
    var left := ParseExec(b, s);
    ParseExecSpanned(b, s);
    if left.Some? && Peek(b, left.value.1, "|") {
      ParsePipeSpanned(b, GetToken(b, left.value.1).next);
    }
  }

  lemma {:induction false} ParseBacksSpanned(b: string, c: Cmd<Span>, s: nat)
    requires s <= |b| && CString(b) && Spanned(b, c)
    ensures Spanned(b, ParseBacks(b, c, s).0)
    decreases |b| - s
  {
    if Peek(b, s, "&") {
      ParseBacksSpanned(b, Back(c), GetToken(b, s).next);
    }
  }

  lemma {:induction false} ParseLineSpanned(b: string, s: nat)
    requires s <= |b| && CString(b)
    ensures var r := ParseLine(b, s); r.Some? ==> Spanned(b, r.value.0)
    decreases |b| - s, 3
  {
    var first := ParsePipe(b, s);
    ParsePipeSpanned(b, s);
    if first.Some? {
      ParseBacksSpanned(b, first.value.0, first.value.1);
      var (c, s1) := ParseBacks(b, first.value.0, first.value.1);
      if Peek(b, s1, ";") {
        ParseLineSpanned(b, GetToken(b, s1).next);
      }
    }
  }

  /** The words a spanned tree reads from the buffer make it one that can be printed. */
  lemma {:induction false} SpannedWellFormed(b: string, c: Cmd<Span>)
    requires Spanned(b, c)
    ensures WellFormed(Words(b, c))
  {
    match c
    case Exec(argv) =>
    case Redir(cmd, file, mode) => SpannedWellFormed(b, cmd);
    case Pipe(left, right) =>
      SpannedWellFormed(b, left);
      SpannedWellFormed(b, right);
    case List(left, right) =>
      SpannedWellFormed(b, left);
      SpannedWellFormed(b, right);
    case Back(cmd) => SpannedWellFormed(b, cmd);
  }

  /** Whatever is parsed is a tree the canonical printing covers: parsing that printing
      gives the same command again. */
  lemma ParsedPrints(b: string)
    requires CString(b) && ParseCmd(b).Some?
    ensures var t := Words(b, ParseCmd(b).value);
      && WellFormed(t) && CString(Print(t)) && ParseCmd(Print(t)).Some?
      && Words(Print(t), ParseCmd(Print(t)).value) == t
  {
    hide Print, ParseLine, Words;
    ParseLineSpanned(b, 0);
    SpannedWellFormed(b, ParseCmd(b).value);
    RoundTrip(Words(b, ParseCmd(b).value));
  }

  // ---------- the parser over the buffer ----------

  /** The text in the buffer before its NUL. */
  ghost function Line(buf: array<char>): string
    reads buf
    requires buf.Length > 0
  {
    buf[..buf.Length - 1]
  }

  ghost predicate Terminated(buf: array<char>)
    reads buf
  {
    buf.Length > 0 && buf[buf.Length - 1] == '\0' && CString(Line(buf))
  }

  method SkipBlanks(buf: array<char>, s0: nat) returns (s: nat)
    requires Terminated(buf) && s0 < buf.Length
    ensures s == Skip(Line(buf), s0)
  {
    s := s0;
    while s < buf.Length - 1 && IsSpace(buf[s])
      invariant s <= buf.Length - 1 && Skip(Line(buf), s0) == Skip(Line(buf), s)
    {
      s := s + 1;
    }
  }

  method SkipWord(buf: array<char>, s0: nat) returns (s: nat)
    requires Terminated(buf) && s0 < buf.Length
    ensures s == WordEnd(Line(buf), s0)
  {
    s := s0;
    while s < buf.Length - 1 && !IsSpace(buf[s]) && !IsSymbol(buf[s])
      invariant s0 <= s <= buf.Length - 1 && WordEnd(Line(buf), s0) == WordEnd(Line(buf), s)
    {
      s := s + 1;
    }
  }

  method Gettoken(buf: array<char>, s0: nat) returns (t: Token)
    requires Terminated(buf) && s0 < buf.Length
    ensures t == GetToken(Line(buf), s0)
  {
    var s := SkipBlanks(buf, s0);
    var q := s;
    var ret := buf[s];
    if ret == '\0' {
    } else if ret == '>' {
      s := s + 1;
      if buf[s] == '>' {
        ret := '+';
        s := s + 1;
      }
    } else if IsSymbol(ret) {
      s := s + 1;
    } else {
      ret := 'a';
      s := SkipWord(buf, s);
    }
    var eq := s;
    s := SkipBlanks(buf, s);
    t := Token(ret, q, eq, s);
  }

  method PeekAt(buf: array<char>, s0: nat, toks: string) returns (yes: bool, s: nat)
    requires Terminated(buf) && s0 < buf.Length
    ensures yes == Peek(Line(buf), s0, toks) && s == Skip(Line(buf), s0)
  {
    s := SkipBlanks(buf, s0);
    yes := buf[s] != '\0' && buf[s] in toks;
  }

  /** Skipping blanks first changes nothing for the functions that skip them anyway. */
  lemma SkipTwice(b: string, s: nat)
    requires s <= |b| && CString(b)
    ensures Skip(b, Skip(b, s)) == Skip(b, s) && GetToken(b, Skip(b, s)) == GetToken(b, s)
    ensures forall toks :: Peek(b, Skip(b, s), toks) == Peek(b, s, toks)
  {
  }

  method Parseredirs(buf: array<char>, s0: nat) returns (rs: Option<Redirs>, s: nat)
    requires Terminated(buf) && s0 < buf.Length
    ensures ParseRedirs(Line(buf), s0, []) == if rs.Some? then Some((rs.value, s)) else None
    ensures rs.Some? ==> s0 <= s < buf.Length
  {
    ghost var b := Line(buf);
    var done: Redirs := [];
    s := s0;
    ghost var before := s0;
    var more;
    more, s := PeekAt(buf, s0, "<>");
    while more
      invariant s0 <= before <= s < buf.Length && more == Peek(b, before, "<>") && s == Skip(b, before)
      invariant ParseRedirs(b, s0, []) == ParseRedirs(b, before, done)
      decreases buf.Length - before
    {
      SkipTwice(b, before);
      var op := Gettoken(buf, s);
      var file := Gettoken(buf, op.next);
      if file.tok != 'a' {
        return None, s;
      }
      done := done + [(Span(file.q, file.eq), if op.tok == '<' then In else Out)];
      before := file.next;
      more, s := PeekAt(buf, file.next, "<>");
    }
    rs := Some(done);
  }

  method Parseexec(buf: array<char>, s0: nat) returns (cmd: Option<Cmd<Span>>, s: nat)
    requires Terminated(buf) && s0 < buf.Length
    ensures ParseExec(Line(buf), s0) == if cmd.Some? then Some((cmd.value, s)) else None
    ensures cmd.Some? ==> s0 <= s < buf.Length
    decreases buf.Length - s0, 1
  {
    var block;
    block, s := PeekAt(buf, s0, "(");
    if block {
      cmd, s := Parseblock(buf, s0);
      return;
    }
    var first;
    first, s := Parseredirs(buf, s0);
    if first.None? {
      return None, s;
    }
    cmd, s := Parseargs(buf, s, first.value);
  }

  /** The word loop of `parseexec`. */
  method Parseargs(buf: array<char>, s0: nat, rs0: Redirs) returns (cmd: Option<Cmd<Span>>, s: nat)
    requires Terminated(buf) && s0 < buf.Length
    ensures ParseArgs(Line(buf), s0, [], rs0) == if cmd.Some? then Some((cmd.value, s)) else None
    ensures cmd.Some? ==> s0 <= s < buf.Length
  {
    ghost var b := Line(buf);
    var argv, rs := [], rs0;
    s := s0;
    while true
      invariant s0 <= s < buf.Length && ParseArgs(b, s0, [], rs0) == ParseArgs(b, s, argv, rs)
      decreases buf.Length - s
    {
      var stop, at := PeekAt(buf, s, "|)&;");
      if stop {
        return Some(Wrap(Exec(argv), rs)), at;
      }
      var t := Gettoken(buf, s);
      if t.tok == '\0' {
        return Some(Wrap(Exec(argv), rs)), t.next;
      }
      if t.tok != 'a' {
        return None, s;
      }
      argv := argv + [Span(t.q, t.eq)];
      if |argv| >= MAXARGS {
        return None, s;
      }
      var more;
      more, s := MoreRedirs(buf, t.next, rs);
      if more.None? {
        return None, s;
      }
      rs := more.value;
    }
  }

  /** `parseredirs` around what has been built already. */
  method MoreRedirs(buf: array<char>, s0: nat, rs0: Redirs) returns (rs: Option<Redirs>, s: nat)
    requires Terminated(buf) && s0 < buf.Length
    ensures ParseRedirs(Line(buf), s0, rs0) == if rs.Some? then Some((rs.value, s)) else None
    ensures rs.Some? ==> s0 <= s < buf.Length
  {
    rs, s := Parseredirs(buf, s0);
    RedirsAppend(Line(buf), s0, rs0, []);
    assert rs0 + [] == rs0;
    if rs.Some? {
      rs := Some(rs0 + rs.value);
    }
  }

  lemma {:induction false} RedirsAppend(b: string, s: nat, rs: Redirs, done: Redirs)
    requires s <= |b| && CString(b)
    ensures var r := ParseRedirs(b, s, done);
      ParseRedirs(b, s, rs + done) == if r.Some? then Some((rs + r.value.0, r.value.1)) else None
    decreases |b| - s
  {
    if Peek(b, s, "<>") {
      var op := GetToken(b, s);
      var file := GetToken(b, op.next);
      if file.tok == 'a' {
        var one := [(Span(file.q, file.eq), if op.tok == '<' then In else Out)];
        assert rs + done + one == rs + (done + one);
        RedirsAppend(b, file.next, rs, done + one);
      }
    }
  }

  method Parseblock(buf: array<char>, s0: nat) returns (cmd: Option<Cmd<Span>>, s: nat)
    requires Terminated(buf) && s0 < buf.Length
    ensures ParseBlock(Line(buf), s0) == if cmd.Some? then Some((cmd.value, s)) else None
    ensures cmd.Some? ==> s0 <= s < buf.Length
    decreases buf.Length - s0, 0
  {
    var open;
    open, s := PeekAt(buf, s0, "(");
    if !open {
      return None, s;
    }
    var t := Gettoken(buf, s0);
    cmd, s := Parseline(buf, t.next);
    if cmd.None? {
      return;
    }
    var inside := s;
    var close;
    close, s := PeekAt(buf, inside, ")");
    if !close {
      return None, s;
    }
    t := Gettoken(buf, inside);
    var rs;
    rs, s := Parseredirs(buf, t.next);
    if rs.None? {
      return None, s;
    }
    cmd := Some(Wrap(cmd.value, rs.value));
  }

  method Parsepipe(buf: array<char>, s0: nat) returns (cmd: Option<Cmd<Span>>, s: nat)
    requires Terminated(buf) && s0 < buf.Length
    ensures ParsePipe(Line(buf), s0) == if cmd.Some? then Some((cmd.value, s)) else None
    ensures cmd.Some? ==> s0 <= s < buf.Length
    decreases buf.Length - s0, 2
  {
    cmd, s := Parseexec(buf, s0);
    if cmd.None? {
      return;
    }
    var left := s;
    var more;
    more, s := PeekAt(buf, left, "|");
    if more {
      var t := Gettoken(buf, left);
      var right;
      right, s := Parsepipe(buf, t.next);
      cmd := if right.Some? then Some(Pipe(cmd.value, right.value)) else None;
    }
  }

  method Parseline(buf: array<char>, s0: nat) returns (cmd: Option<Cmd<Span>>, s: nat)
    requires Terminated(buf) && s0 < buf.Length
    ensures ParseLine(Line(buf), s0) == if cmd.Some? then Some((cmd.value, s)) else None
    ensures cmd.Some? ==> s0 <= s < buf.Length
    decreases buf.Length - s0, 3
  {
    cmd, s := Parsepipe(buf, s0);
    if cmd.None? {
      return;
    }
    cmd, s := Parsebacks(buf, cmd.value, s);
    var more, at := PeekAt(buf, s, ";");
    if more {
      var t := Gettoken(buf, s);
      var rest;
      rest, s := Parseline(buf, t.next);
      cmd := if rest.Some? then Some(List(cmd.value, rest.value)) else None;
    }
  }

  /** The `&` loop of `parseline`. */
  method Parsebacks(buf: array<char>, c: Cmd<Span>, s0: nat) returns (cmd: Option<Cmd<Span>>, s: nat)
    requires Terminated(buf) && s0 < buf.Length
    ensures cmd.Some? && ParseBacks(Line(buf), c, s0) == (cmd.value, s) && s0 <= s < buf.Length
  {
    ghost var b := Line(buf);
    var now := c;
    ghost var before := s0;
    var more;
    more, s := PeekAt(buf, s0, "&");
    while more
      invariant s0 <= before <= s < buf.Length && more == Peek(b, before, "&") && s == Skip(b, before)
      invariant ParseBacks(b, c, s0) == ParseBacks(b, now, before)
      decreases buf.Length - before
    {
      SkipTwice(b, before);
      var t := Gettoken(buf, s);
      now := Back(now);
      before := t.next;
      more, s := PeekAt(buf, t.next, "&");
    }
    cmd := Some(now);
  }

  // ---------- cutting the words off ----------

  /** The places `nulterminate` overwrites. */
  function Ends(c: Cmd<Span>): set<nat> {
    match c
    case Exec(argv) => set w | w in argv :: w.eq
    case Redir(cmd, file, mode) => Ends(cmd) + {file.eq}
    case Pipe(left, right) => Ends(left) + Ends(right)
    case List(left, right) => Ends(left) + Ends(right)
    case Back(cmd) => Ends(cmd)
  }

  /** `after` is `before` with NULs at `ends`. */
  predicate Cut(before: seq<char>, after: seq<char>, ends: set<nat>) {
    |after| == |before| && forall i :: 0 <= i < |before| ==> after[i] == if i in ends then '\0' else before[i]
  }

  predicate Below(ends: set<nat>, n: nat) {
    forall e :: e in ends ==> e < n
  }

  lemma BelowBoth(a: set<nat>, b: set<nat>, n: nat)
    requires Below(a + b, n)
    ensures Below(a, n) && Below(b, n)
  {
    assert forall e :: e in a || e in b ==> e in a + b;
  }

  method Nulterminate(buf: array<char>, c: Cmd<Span>)
    requires Below(Ends(c), buf.Length)
    modifies buf
    ensures Cut(old(buf[..]), buf[..], Ends(c))
    decreases c
  {
    match c
    case Exec(argv) =>
      var i := 0;
      while i < |argv|
        invariant 0 <= i <= |argv|
        invariant forall k :: 0 <= k < buf.Length ==> buf[k] == if (exists j :: 0 <= j < i && argv[j].eq == k) then '\0' else old(buf[k])
      {
        assert argv[i].eq in Ends(c);
        buf[argv[i].eq] := '\0';
        i := i + 1;
      }
    case Redir(cmd, file, mode) =>
      BelowBoth(Ends(cmd), {file.eq}, buf.Length);
      Nulterminate(buf, cmd);
      buf[file.eq] := '\0';
    case Pipe(left, right) =>
      BelowBoth(Ends(left), Ends(right), buf.Length);
      Nulterminate(buf, left);
      Nulterminate(buf, right);
    case List(left, right) =>
      BelowBoth(Ends(left), Ends(right), buf.Length);
      Nulterminate(buf, left);
      Nulterminate(buf, right);
    case Back(cmd) =>
      Nulterminate(buf, cmd);
  }

  /** The C string at `q`. */
  function CStr(buf: seq<char>, q: nat): string
    decreases |buf| - q
  {
    if q >= |buf| || buf[q] == '\0' then "" else [buf[q]] + CStr(buf, q + 1)
  }

  /** The tree with its words read as C strings. */
  function CWords(buf: seq<char>, c: Cmd<Span>): Cmd<string> {
    match c
    case Exec(argv) => Exec(seq(|argv|, i requires 0 <= i < |argv| => CStr(buf, argv[i].q)))
    case Redir(cmd, file, mode) => Redir(CWords(buf, cmd), CStr(buf, file.q), mode)
    case Pipe(left, right) => Pipe(CWords(buf, left), CWords(buf, right))
    case List(left, right) => List(CWords(buf, left), CWords(buf, right))
    case Back(cmd) => Back(CWords(buf, cmd))
  }

  /** Places after words: no word has one of them inside. */
  predicate Between(b: string, ends: set<nat>) {
    forall e :: e in ends ==> e <= |b| && (e == |b| || !InWord(b[e]))
  }

  lemma {:induction false} EndsBetween(b: string, c: Cmd<Span>)
    requires Spanned(b, c)
    ensures Between(b, Ends(c))
  {
    match c
    case Exec(argv) =>
    case Redir(cmd, file, mode) => EndsBetween(b, cmd);
    case Pipe(left, right) => EndsBetween(b, left); EndsBetween(b, right);
    case List(left, right) => EndsBetween(b, left); EndsBetween(b, right);
    case Back(cmd) => EndsBetween(b, cmd);
  }

  lemma {:induction false} WordKept(b: string, after: seq<char>, ends: set<nat>, q: nat, eq: nat)
    requires CString(b) && Cut(b + ['\0'], after, ends) && Between(b, ends) && q <= eq <= |b| && eq in ends
    requires forall i :: q <= i < eq ==> InWord(b[i])
    ensures CStr(after, q) == b[q..eq]
    decreases eq - q
  {
    if q < eq {
      WordKept(b, after, ends, q + 1, eq);
      assert b[q..eq] == [b[q]] + b[q + 1..eq];
    }
  }

  lemma {:induction false} TreeKept(b: string, after: seq<char>, ends: set<nat>, c: Cmd<Span>)
    requires CString(b) && Cut(b + ['\0'], after, ends) && Between(b, ends) && Spanned(b, c) && Ends(c) <= ends
    ensures CWords(after, c) == Words(b, c)
  {
    match c
    case Exec(argv) =>
      forall i | 0 <= i < |argv|
        ensures CStr(after, argv[i].q) == Texts(b, argv)[i]
      {
        assert argv[i].eq in Ends(c);
        WordKept(b, after, ends, argv[i].q, argv[i].eq);
      }
      assert seq(|argv|, i requires 0 <= i < |argv| => CStr(after, argv[i].q)) == Texts(b, argv);
    case Redir(cmd, file, mode) =>
      WordKept(b, after, ends, file.q, file.eq);
      TreeKept(b, after, ends, cmd);
    case Pipe(left, right) =>
      TreeKept(b, after, ends, left);
      TreeKept(b, after, ends, right);
    case List(left, right) =>
      TreeKept(b, after, ends, left);
      TreeKept(b, after, ends, right);
    case Back(cmd) =>
      TreeKept(b, after, ends, cmd);
  }

  /** `parsecmd`: the tree of the whole line, with every word cut off in place. */
  method Parsecmd(buf: array<char>) returns (cmd: Option<Cmd<Span>>)
    requires Terminated(buf)
    modifies buf
    ensures cmd == old(ParseCmd(Line(buf)))
    ensures cmd.Some? ==> CWords(buf[..], cmd.value) == Words(old(Line(buf)), cmd.value)
    ensures cmd.None? ==> buf[..] == old(buf[..])
  {
    ghost var b := Line(buf);
    var s;
    cmd, s := Parseline(buf, 0);
    if cmd.None? {
      return;
    }
    var at := SkipBlanks(buf, s);
    if at != buf.Length - 1 {
      return None;
    }
    ParseLineSpanned(b, 0);
    EndsBetween(b, cmd.value);
    assert buf[..] == b + ['\0'];
    Nulterminate(buf, cmd.value);
    TreeKept(b, buf[..], Ends(cmd.value), cmd.value);
  }
}
