/** The rules of quoting that the command splitter follows, by what a text begins with. With them the place of the
    first cut follows for every text. */
module ShellQuoting {
  import opened Text
  import opened ShellSplitter

  /** No quote, no backslash and no separator. */
  predicate Calm(a: string, pipes: bool) {
    forall k :: 0 <= k < |a| ==>
      && a[k] !in {'\'', '"', '\\', '\n', '\r', ';'}
      && (pipes ==> a[k] != '|')
      && (k + 1 < |a| && a[k] in {'&', '|'} ==> a[k + 1] != a[k])
  }

  /** No separator arises where the two meet. */
  predicate Apart(a: string, b: string) {
    a != "" && b != "" && a[|a| - 1] in {'&', '|'} ==> b[0] != a[|a| - 1]
  }

  /** Between double quotes: every double quote and every backslash has a backslash before it. */
  predicate Escaped(body: string) {
    if body == "" then true
    else if body[0] == '\\' then |body| >= 2 && Escaped(body[2..])
    else body[0] != '"' && Escaped(body[1..])
  }

  /** The cut of the rest, n characters further on. */
  function Further(n: nat, cut: (nat, nat)): (nat, nat) {
    (n + cut.0, cut.1)
  }

  // ---------------------------------------------------------------- scanning

  lemma ScanFrom(s: string, i: nat, pipes: bool)
    requires i <= |s|
    ensures FirstCut(s, i, START, pipes) == Further(i, Cut(s[i..], pipes))
  {
    hide FirstCut;
    CutOfSuffix(s, i, 0, START, pipes);
  }

  lemma {:induction false} CalmScan(s: string, i: nat, n: nat, pipes: bool)
    requires i <= n <= |s| && Calm(s[..n], pipes) && Apart(s[..n], s[n..])
    ensures FirstCut(s, i, START, pipes) == FirstCut(s, n, START, pipes)
    decreases n - i
  {
    if i < n {
      assert s[..n][i] == s[i];
      assert i + 1 < n ==> s[..n][i + 1] == s[i + 1];
      assert i + 1 == n < |s| ==> s[n..][0] == s[i + 1];
      CalmScan(s, i + 1, n, pipes);
    }
  }

  lemma {:induction false} SingleScan(s: string, i: nat, n: nat, pipes: bool)
    requires i <= n <= |s| && '\'' !in s[i..n]
    ensures FirstCut(s, i, Lex(true, false, false), pipes) == FirstCut(s, n, Lex(true, false, false), pipes)
    decreases n - i
  {
    if i < n {
      assert s[i..n][0] == s[i] && s[i..n][1..] == s[i + 1..n];
      SingleScan(s, i + 1, n, pipes);
    }
  }

  lemma {:induction false} DoubleScan(s: string, i: nat, n: nat, pipes: bool)
    requires i <= n <= |s| && Escaped(s[i..n])
    ensures FirstCut(s, i, Lex(false, true, false), pipes) == FirstCut(s, n, Lex(false, true, false), pipes)
    decreases n - i
  {
    if i < n {
      assert s[i..n][0] == s[i];
      if s[i] == '\\' {
        assert s[i..n][2..] == s[i + 2..n];
        DoubleScan(s, i + 2, n, pipes);
      } else {
        assert s[i..n][1..] == s[i + 1..n];
        DoubleScan(s, i + 1, n, pipes);
      }
    }
  }

  // ---------------------------------------------------------------- the rules

  /** Nothing is cut in calm text: what comes behind it is cut as if it stood alone. */
  lemma CalmRule(a: string, b: string, pipes: bool)
    requires Calm(a, pipes) && Apart(a, b)
    ensures Cut(a + b, pipes) == Further(|a|, Cut(b, pipes))
  {
    hide FirstCut, Calm, Apart;
    var s := a + b;
    assert s[..|a|] == a && s[|a|..] == b;
    CalmScan(s, 0, |a|, pipes);
    ScanFrom(s, |a|, pipes);
    assert Cut(s, pipes) == FirstCut(s, 0, START, pipes);
  }

  lemma NothingToCut(pipes: bool)
    ensures Cut("", pipes) == (0, 0)
  {}

  /** A backslash takes the next character with it, whatever that is. */
  lemma BackslashRule(c: char, b: string, pipes: bool)
    ensures Cut("\\" + [c] + b, pipes) == Further(2, Cut(b, pipes))
    ensures Cut("\\", pipes) == (1, 0)
  {
    var s := "\\" + [c] + b;
    assert s[2..] == b;
    assert FirstCut(s, 1, Lex(false, false, true), pipes) == FirstCut(s, 2, START, pipes);
    ScanFrom(s, 2, pipes);
    assert FirstCut("\\", 1, Lex(false, false, true), pipes) == (1, 0);
  }

  /** Between single quotes nothing but the closing quote counts. */
  lemma SingleQuoteRule(body: string, b: string, pipes: bool)
    requires '\'' !in body
    ensures Cut("'" + body + "'" + b, pipes) == Further(|body| + 2, Cut(b, pipes))
    ensures Cut("'" + body, pipes) == (|body| + 1, 0)
  {
    var s, n := "'" + body + "'" + b, |body| + 1;
    assert s[1..n] == body && s[n] == '\'' && s[n + 1..] == b;
    SingleScan(s, 1, n, pipes);
    assert FirstCut(s, n, Lex(true, false, false), pipes) == FirstCut(s, n + 1, START, pipes);
    ScanFrom(s, n + 1, pipes);
    var open := "'" + body;
    assert open[1..n] == body;
    SingleScan(open, 1, n, pipes);
  }

  lemma DoubleOpens(body: string, z: string, pipes: bool)
    requires Escaped(body)
    ensures Cut("\"" + body + z, pipes) == FirstCut("\"" + body + z, |body| + 1, Lex(false, true, false), pipes)
  {
    hide Escaped;
    var s, n := "\"" + body + z, |body| + 1;
    assert s[0] == '"' && s[1..n] == body;
    assert Cut(s, pipes) == FirstCut(s, 1, Lex(false, true, false), pipes);
    DoubleScan(s, 1, n, pipes);
  }

  /** Between double quotes nothing but a closing quote without a backslash counts. */
  lemma DoubleQuoteRule(body: string, b: string, pipes: bool)
    requires Escaped(body)
    ensures Cut("\"" + body + "\"" + b, pipes) == Further(|body| + 2, Cut(b, pipes))
  {
    hide Escaped, Cut;
    var s, n := "\"" + body + "\"" + b, |body| + 1;
    assert s == "\"" + body + ("\"" + b);
    DoubleOpens(body, "\"" + b, pipes);
    assert s[n] == '"' && s[n + 1..] == b;
    assert FirstCut(s, n, Lex(false, true, false), pipes) == FirstCut(s, n + 1, START, pipes);
    ScanFrom(s, n + 1, pipes);
  }

  /** Without one, to the end of the text. */
  lemma OpenDoubleQuoteRule(body: string, pipes: bool)
    requires Escaped(body)
    ensures Cut("\"" + body, pipes) == (|body| + 1, 0)
    ensures Cut("\"" + body + "\\", pipes) == (|body| + 2, 0)
  {
    hide Escaped, Cut;
    var n, left := |body| + 1, "\"" + body + "\\";
    assert "\"" + body + "" == "\"" + body;
    DoubleOpens(body, "", pipes);
    DoubleOpens(body, "\\", pipes);
    assert left[n] == '\\';
    assert FirstCut(left, n, Lex(false, true, false), pipes) == FirstCut(left, n + 1, Lex(false, true, true), pipes);
  }

  /** A separator does cut, and a pair of ampersands or bars is one separator. */
  lemma SeparatorRule(sep: string, b: string, pipes: bool)
    requires sep in ["\n", "\r", ";", "&&", "||"] || (pipes && sep == "|" && (b == "" || b[0] != '|'))
    ensures Cut(sep + b, pipes) == (0, |sep|)
  {
    var s := sep + b;
    assert s[0] == sep[0] && (|sep| == 2 ==> s[1] == sep[1]);
    assert |sep| == 1 && b != "" ==> s[1] == b[0];
  }

  // ---------------------------------------------------------------- behind calm text

  lemma CalmMeetsSeparator(a: string, sep: string, b: string, pipes: bool)
    requires Calm(a, pipes) && Apart(a, sep)
    requires sep in ["\n", "\r", ";", "&&", "||"] || (pipes && sep == "|" && (b == "" || b[0] != '|'))
    ensures Cut(a + sep + b, pipes) == (|a|, |sep|)
  {
    hide Calm, Cut;
    assert a + sep + b == a + (sep + b);
    assert (sep + b)[0] == sep[0];
    CalmRule(a, sep + b, pipes);
    SeparatorRule(sep, b, pipes);
  }

  lemma CalmMeetsBackslash(a: string, c: char, b: string, pipes: bool)
    requires Calm(a, pipes)
    ensures Cut(a + "\\" + [c] + b, pipes) == Further(|a| + 2, Cut(b, pipes))
  {
    hide Calm, Cut;
    assert a + "\\" + [c] + b == a + ("\\" + [c] + b);
    CalmRule(a, "\\" + [c] + b, pipes);
    BackslashRule(c, b, pipes);
  }

  /** Whatever character stands behind a backslash, also a separator, stays in its segment, as in the
      arguments of `find -exec`. */
  lemma EscapedSeparatorStays(a: string, c: char, b: string, pipes: bool)
    requires Calm(a, pipes) && Calm(b, pipes) && !Blank(a)
    ensures Split(a + "\\" + [c] + b, pipes) == [a + "\\" + [c] + b]
  {
    hide Calm, Cut, Split, Apart;
    var s := a + "\\" + [c] + b;
    CalmMeetsBackslash(a, c, b, pipes);
    assert b + "" == b;
    assert Apart(b, "") by { NothingBehind(b); }
    CalmRule(b, "", pipes);
    NothingToCut(pipes);
    SplitAtCut(s, pipes, |s|, 0);
    var k :| 0 <= k < |a| && !IsSpace(a[k]);
    assert s[k] == a[k];
  }

  lemma NothingBehind(b: string)
    ensures Apart(b, "")
  {}

  /** A text between double quotes stays whole, with escaped quotes, escaped backslashes and separators inside. */
  lemma DoubleQuotedIsWhole(body: string, pipes: bool)
    requires Escaped(body)
    ensures Split("\"" + body + "\"", pipes) == ["\"" + body + "\""]
  {
    hide Cut, Split, IsSpace, Escaped;
    var s := "\"" + body + "\"";
    assert s + "" == s;
    DoubleQuoteRule(body, "", pipes);
    NothingToCut(pipes);
    SplitAtCut(s, pipes, |s|, 0);
    assert s[0] == '"' && !IsSpace(s[0]) by { QuoteIsNoSpace('"'); }
  }
}
