/** The regular-expression matcher of `grep`: backtracking search against the language that
    a pattern denotes. Strings stand for C strings without their final NUL. */
module Grep {

  /** A pattern item: one character (or any, for '.'), or any number of them. */
  datatype Item = One(c: char) | Star(c: char)

  /** A pattern: items, and whether a final `$` ties it to the end of the text. */
  datatype Pattern = Pattern(items: seq<Item>, toEnd: bool)

  predicate CString(s: string) {
    forall i :: 0 <= i < |s| ==> s[i] != '\0'
  }

  predicate Fits(c: char, x: char) {
    c == '.' || c == x
  }

  // ---------- what a pattern means ----------

  /** The strings one item stands for. */
  predicate ItemLang(item: Item, s: string) {
    match item
    case One(c) => |s| == 1 && Fits(c, s[0])
    case Star(c) => forall i :: 0 <= i < |s| ==> Fits(c, s[i])
  }

  /** Concatenation of the items' languages. */
  ghost predicate Lang(items: seq<Item>, s: string) {
    if items == [] then s == ""
    else exists k :: 0 <= k <= |s| && ItemLang(items[0], s[..k]) && Lang(items[1..], s[k..])
  }

  /** Some prefix of the text is in the language; all of it when tied to the end. */
  ghost predicate MatchesPrefix(p: Pattern, text: string) {
    exists k :: 0 <= k <= |text| && Lang(p.items, text[..k]) && (p.toEnd ==> k == |text|)
  }

  ghost predicate MatchesAt(p: Pattern, text: string, j: nat) {
    j <= |text| && MatchesPrefix(p, text[j..])
  }

  /** What the source text of a pattern denotes: `c*` is a star, a lone final `$` the end,
      anything else a character, `^` and `*` among them. */
  function Parse(re: string): Pattern
    decreases |re|
  {
    if re == "" then Pattern([], false)
    else if |re| > 1 && re[1] == '*' then
      var rest := Parse(re[2..]);
      Pattern([Star(re[0])] + rest.items, rest.toEnd)
    else if re == "$" then Pattern([], true)
    else
      var rest := Parse(re[1..]);
      Pattern([One(re[0])] + rest.items, rest.toEnd)
  }

  /** The whole search: a leading `^` ties the pattern to the start of the text. */
  ghost predicate Matches(re: string, text: string) {
    if re != "" && re[0] == '^' then MatchesPrefix(Parse(re[1..]), text)
    else exists j :: MatchesAt(Parse(re), text, j)
  }

  // ---------- one step of the search ----------

  lemma EmptyPattern(toEnd: bool, text: string)
    ensures MatchesPrefix(Pattern([], toEnd), text) <==> (toEnd ==> text == "")
  {
    assert text[..0] == "";
    assert Lang([], text[..0]);
  }

  lemma OneStep(c: char, rest: Pattern, text: string)
    ensures MatchesPrefix(Pattern([One(c)] + rest.items, rest.toEnd), text)
            <==> text != "" && Fits(c, text[0]) && MatchesPrefix(rest, text[1..])
  {
    var p := Pattern([One(c)] + rest.items, rest.toEnd);
    assert p.items[1..] == rest.items;
    if MatchesPrefix(p, text) {
      var k :| 0 <= k <= |text| && Lang(p.items, text[..k]) && (p.toEnd ==> k == |text|);
      assert text[..k][1..] == text[1..][..k - 1];
      assert Lang(rest.items, text[1..][..k - 1]);
    }
    if text != "" && Fits(c, text[0]) && MatchesPrefix(rest, text[1..]) {
      var k :| 0 <= k <= |text[1..]| && Lang(rest.items, text[1..][..k]) && (rest.toEnd ==> k == |text[1..]|);
      var s := text[..k + 1];
      assert s[1..] == text[1..][..k] && ItemLang(One(c), s[..1]);
      assert Lang(p.items, s);
    }
  }

  /** After some number of characters that fit, the rest matches. */
  ghost predicate StarAt(c: char, rest: Pattern, text: string, n: nat) {
    n <= |text| && (forall i :: 0 <= i < n ==> Fits(c, text[i])) && MatchesPrefix(rest, text[n..])
  }

  lemma StarStep(c: char, rest: Pattern, text: string)
    ensures MatchesPrefix(Pattern([Star(c)] + rest.items, rest.toEnd), text)
            <==> exists n: nat :: StarAt(c, rest, text, n)
  {
    var p := Pattern([Star(c)] + rest.items, rest.toEnd);
    assert p.items[1..] == rest.items;
    if MatchesPrefix(p, text) {
      var k :| 0 <= k <= |text| && Lang(p.items, text[..k]) && (p.toEnd ==> k == |text|);
      var s := text[..k];
      var n :| 0 <= n <= |s| && ItemLang(Star(c), s[..n]) && Lang(rest.items, s[n..]);
      assert s[n..] == text[n..][..k - n];
      assert forall i :: 0 <= i < n ==> Fits(c, s[..n][i]);
      assert StarAt(c, rest, text, n);
    }
    if n: nat :| StarAt(c, rest, text, n) {
      var k :| 0 <= k <= |text[n..]| && Lang(rest.items, text[n..][..k]) && (rest.toEnd ==> k == |text[n..]|);
      var s := text[..n + k];
      assert s[n..] == text[n..][..k] && ItemLang(Star(c), s[..n]);
      assert Lang(p.items, s);
    }
  }

  // ---------- the matcher ----------

  /** Search for `re` at the beginning of `text`. */
  method MatchHere(re: string, text: string) returns (r: bool)
    requires CString(re) && CString(text)
    ensures r <==> MatchesPrefix(Parse(re), text)
    decreases |re|, 0
  {
    EmptyPattern(true, text);
    EmptyPattern(false, text);
    if re == "" {
      return true;
    }
    if |re| > 1 && re[1] == '*' {
      StarStep(re[0], Parse(re[2..]), text);
      assert Parse(re) == Pattern([Star(re[0])] + Parse(re[2..]).items, Parse(re[2..]).toEnd);
      r := MatchStar(re[0], re[2..], text);
      return;
    }
    if re[0] == '$' && |re| == 1 {
      return text == "";
    }
    OneStep(re[0], Parse(re[1..]), text);
    if text != "" && (re[0] == '.' || re[0] == text[0]) {
      r := MatchHere(re[1..], text[1..]);
      return;
    }
    return false;
  }

  /** Search for `c*re` at the beginning of `text`, shortest repetition first. */
  method MatchStar(c: char, re: string, text: string) returns (r: bool)
    requires CString(re) && CString(text)
    ensures r <==> exists n: nat :: StarAt(c, Parse(re), text, n)
    decreases |re|, 1
  {
    var n := 0;
    while true
      invariant 0 <= n <= |text| && forall i :: 0 <= i < n ==> Fits(c, text[i])
      invariant forall m: nat :: m < n ==> !StarAt(c, Parse(re), text, m)
      decreases |text| - n
    {
      var here := MatchHere(re, text[n..]);
      if here {
        assert StarAt(c, Parse(re), text, n);
        return true;
      }
      if n == |text| || !(text[n] == c || c == '.') {
        return false;
      }
      n := n + 1;
    }
  }

  /** Search for `re` anywhere in `text`; even the empty string at its end is tried. */
  method Match(re: string, text: string) returns (r: bool)
    requires CString(re) && CString(text)
    ensures r <==> Matches(re, text)
  {
    if re != "" && re[0] == '^' {
      r := MatchHere(re[1..], text);
      return;
    }
    var j := 0;
    while true
      invariant 0 <= j <= |text|
      invariant forall i: nat :: i < j ==> !MatchesAt(Parse(re), text, i)
      decreases |text| - j
    {
      var here := MatchHere(re, text[j..]);
      if here {
        assert MatchesAt(Parse(re), text, j);
        return true;
      }
      if j == |text| {
        return false;
      }
      j := j + 1;
    }
  }
}
