/** The quote-aware command splitter of src/agents/bash-tools.exec.ts. */
module ShellSplitter {
  import opened Text

  /** The lexer's state bits. */
  datatype Lex = Lex(inSingle: bool, inDouble: bool, escaped: bool) {
    predicate Neutral() { !inSingle && !inDouble && !escaped }

    function After(ch: char): Lex {
      if escaped then this.(escaped := false)
      else if !inSingle && ch == '\\' then this.(escaped := true)
      else if inSingle then this.(inSingle := ch != '\'')
      else if inDouble then this.(inDouble := ch != '"')
      else Lex(ch == '\'', ch == '"', false)
    }
  }

  const START := Lex(false, false, false)

  /** Width of the command separator that begins at index i of s; 0 when there is none. */
  function SeparatorWidth(s: string, i: nat, pipes: bool): (w: nat)
    requires i < |s|
    ensures i + w <= |s|
  {
    if s[i] == '\n' || s[i] == '\r' || s[i] == ';' then 1
    else if (s[i] == '&' || s[i] == '|') && i + 1 < |s| && s[i + 1] == s[i] then 2
    else if pipes && s[i] == '|' then 1
    else 0
  }

  /** Index and width of the first separator at or after i that is met in a neutral state;
      (|s|, 0) when there is none. */
  function FirstCut(s: string, i: nat, st: Lex, pipes: bool): (r: (nat, nat))
    requires i <= |s|
    ensures i <= r.0 && r.0 + r.1 <= |s|
    ensures r.1 == 0 ==> r.0 == |s|
    ensures r.1 > 0 ==> r.1 == SeparatorWidth(s, r.0, pipes)
    decreases |s| - i
  {
    if i == |s| then (|s|, 0)
    else if st.Neutral() && SeparatorWidth(s, i, pipes) > 0 then (i, SeparatorWidth(s, i, pipes))
    else FirstCut(s, i + 1, st.After(s[i]), pipes)
  }

  function Cut(s: string, pipes: bool): (r: (nat, nat))
    ensures r.0 + r.1 <= |s|
    ensures r.1 == 0 ==> r.0 == |s|
    ensures r.1 > 0 ==> r.1 == SeparatorWidth(s, r.0, pipes)
  {
    FirstCut(s, 0, START, pipes)
  }

  /** A segment is kept unless it is blank. */
  function Segment(buf: string): seq<string> {
    if Blank(buf) then [] else [buf]
  }

  /** Cut at the first neutral separator, start again in the neutral state behind it. */
  function Split(s: string, pipes: bool): seq<string>
    decreases |s|
  {
    var cut := Cut(s, pipes);
    if cut.1 == 0 then Segment(s) else Segment(s[..cut.0]) + Split(s[cut.0 + cut.1..], pipes)
  }

  lemma SplitAtCut(s: string, pipes: bool, i: nat, w: nat)
    requires Cut(s, pipes) == (i, w)
    ensures Split(s, pipes) == if w == 0 then Segment(s) else Segment(s[..i]) + Split(s[i + w..], pipes)
  {
    hide Segment, Cut, FirstCut;
  }

  /** The single pass has emitted `segments`, holds s[start..i] in its buffer and is in state st. */
  ghost predicate Scanned(s: string, pipes: bool, segments: seq<string>, start: nat, i: nat, st: Lex) {
    && start <= i <= |s|
    && segments + Split(s[start..], pipes) == Split(s, pipes)
    && Cut(s[start..], pipes) == FirstCut(s[start..], i - start, st, pipes)
  }

  lemma ScanStart(s: string, pipes: bool)
    ensures Scanned(s, pipes, [], 0, 0, START)
  {
    hide Split;
    assert s[0..] == s;
  }

  lemma ScanEnd(s: string, pipes: bool, segments: seq<string>, start: nat, st: Lex)
    requires Scanned(s, pipes, segments, start, |s|, st)
    ensures segments + Segment(s[start..]) == Split(s, pipes)
  {
    hide Split;
    SplitAtCut(s[start..], pipes, |s| - start, 0);
  }

  lemma ScanOn(s: string, pipes: bool, segments: seq<string>, start: nat, i: nat, st: Lex)
    requires Scanned(s, pipes, segments, start, i, st) && i < |s|
    requires !st.Neutral() || SeparatorWidth(s, i, pipes) == 0
    ensures Scanned(s, pipes, segments, start, i + 1, st.After(s[i]))
  {
    assert s[start..][i - start] == s[i];
  }

  lemma ScanCut(s: string, pipes: bool, segments: seq<string>, start: nat, i: nat, st: Lex)
    requires Scanned(s, pipes, segments, start, i, st) && i < |s|
    requires st.Neutral() && SeparatorWidth(s, i, pipes) > 0
    ensures var e := i + SeparatorWidth(s, i, pipes);
            Scanned(s, pipes, segments + Segment(s[start..i]), e, e, START)
  {
    hide Split, Segment;
    var t, w := s[start..], SeparatorWidth(s, i, pipes);
    assert Cut(s[i + w..], pipes) == FirstCut(s[i + w..], 0, START, pipes);
    assert Cut(t, pipes) == (i - start, w) by {
      assert t[i - start] == s[i];
      assert SeparatorWidth(t, i - start, pipes) == w;
    }
    SplitAtCut(t, pipes, i - start, w);
    assert t[..i - start] == s[start..i] && t[i - start + w..] == s[i + w..];
  }

  /** The source's single pass: four state bits, one character of lookahead. */
  method SplitShellSegmentsOutsideQuotes(rawText: string, splitPipes: bool) returns (segments: seq<string>)
    ensures segments == Split(rawText, splitPipes)
  {
    hide Split, Cut, FirstCut, Segment, Scanned;
    segments := [];
    var buf := "";
    var inSingle, inDouble, escaped := false, false, false;
    var i := 0;
    ghost var start := 0;
    ScanStart(rawText, splitPipes);
    while i < |rawText|
      invariant start <= i <= |rawText| && buf == rawText[start..i]
      invariant Scanned(rawText, splitPipes, segments, start, i, Lex(inSingle, inDouble, escaped))
    {
      var ch := rawText[i];
      var next := if i + 1 < |rawText| then [rawText[i + 1]] else "";
      ghost var st := Lex(inSingle, inDouble, escaped);
      assert rawText[start..i + 1] == rawText[start..i] + [ch];
      if st.Neutral() && SeparatorWidth(rawText, i, splitPipes) > 0 {
        ScanCut(rawText, splitPipes, segments, start, i, st);
      } else {
        ScanOn(rawText, splitPipes, segments, start, i, st);
      }
      if escaped {
        buf := buf + [ch];
        escaped := false;
      } else if !inSingle && ch == '\\' {
        buf := buf + [ch];
        escaped := true;
      } else if inSingle {
        buf := buf + [ch];
        if ch == '\'' { inSingle := false; }
      } else if inDouble {
        buf := buf + [ch];
        if ch == '"' { inDouble := false; }
      } else if ch == '\'' {
        inSingle := true;
        buf := buf + [ch];
      } else if ch == '"' {
        inDouble := true;
        buf := buf + [ch];
      } else if ch == '\n' || ch == '\r' || ch == ';' {
        segments, buf, start := segments + Segment(buf), "", i + 1;
      } else if (ch == '&' && next == "&") || (ch == '|' && next == "|") {
        segments, buf, start := segments + Segment(buf), "", i + 2;
        i := i + 1;
      } else if splitPipes && ch == '|' {
        segments, buf, start := segments + Segment(buf), "", i + 1;
      } else {
        buf := buf + [ch];
      }
      i := i + 1;
    }
    ScanEnd(rawText, splitPipes, segments, start, Lex(inSingle, inDouble, escaped));
    assert buf == rawText[start..];
    segments := segments + Segment(buf);
  }

  // ---------------------------------------------------------------- refinement

  /** Splits every part and lists the results in order. */
  function SplitEach(parts: seq<string>, pipes: bool): seq<string> {
    if parts == [] then [] else Split(parts[0], pipes) + SplitEach(parts[1..], pipes)
  }

  lemma {:induction false} SplitEachAppend(a: seq<string>, b: seq<string>, pipes: bool)
    ensures SplitEach(a + b, pipes) == SplitEach(a, pipes) + SplitEach(b, pipes)
  {
    if a == [] {
      assert a + b == b;
    } else {
      assert (a + b)[0] == a[0] && (a + b)[1..] == a[1..] + b;
      SplitEachAppend(a[1..], b, pipes);
    }
  }

  /** Pipe mode never cuts later than the plain mode, and where it cuts at the same place it cuts alike. */
  lemma {:induction false} PipeCutsFirst(s: string, i: nat, st: Lex)
    requires i <= |s|
    ensures FirstCut(s, i, st, true).0 <= FirstCut(s, i, st, false).0
    ensures FirstCut(s, i, st, true).0 == FirstCut(s, i, st, false).0 ==>
        FirstCut(s, i, st, true) == FirstCut(s, i, st, false)
    ensures FirstCut(s, i, st, true) != FirstCut(s, i, st, false) ==> FirstCut(s, i, st, true).1 == 1
    decreases |s| - i
  {
    if i < |s| && !(st.Neutral() && SeparatorWidth(s, i, true) > 0) {
      PipeCutsFirst(s, i + 1, st.After(s[i]));
    }
  }

  /** Scanning a suffix finds the cut of the whole, shifted. */
  lemma {:induction false} CutOfSuffix(s: string, d: nat, i: nat, st: Lex, pipes: bool)
    requires d + i <= |s|
    ensures FirstCut(s[d..], i, st, pipes).0 + d == FirstCut(s, d + i, st, pipes).0
    ensures FirstCut(s[d..], i, st, pipes).1 == FirstCut(s, d + i, st, pipes).1
    decreases |s| - i
  {
    if d + i < |s| {
      CutOfSuffix(s, d, i + 1, st.After(s[d + i]), pipes);
    }
  }

  /** A pipe cut leaves the lexer where a fresh scan would be: the plain cut behind it is unchanged. */
  lemma {:induction false} PlainCutBehindPipe(s: string, i: nat, st: Lex)
    requires i <= |s|
    requires FirstCut(s, i, st, true).0 < FirstCut(s, i, st, false).0
    ensures FirstCut(s, FirstCut(s, i, st, true).0 + 1, START, false) == FirstCut(s, i, st, false)
    decreases |s| - i
  {
    if !(st.Neutral() && SeparatorWidth(s, i, true) > 0) {
      PlainCutBehindPipe(s, i + 1, st.After(s[i]));
    }
  }

  /** Nothing behind the plain cut e is needed to find a cut before it: lookahead never crosses e. */
  lemma {:induction false} CutOfPrefix(s: string, e: nat, i: nat, st: Lex, pipes: bool)
    requires i <= e <= |s|
    requires e == FirstCut(s, i, st, false).0
    ensures FirstCut(s[..e], i, st, pipes)
         == if FirstCut(s, i, st, pipes).0 < e then FirstCut(s, i, st, pipes) else (e, 0)
    decreases |s| - i
  {
    PipeCutsFirst(s, i, st);
    if i < e {
      assert SeparatorWidth(s, i, false) == 0 || !st.Neutral();
      assert SeparatorWidth(s[..e], i, pipes) == SeparatorWidth(s, i, pipes) || !st.Neutral();
      if !(st.Neutral() && SeparatorWidth(s, i, pipes) > 0) {
        CutOfPrefix(s, e, i + 1, st.After(s[i]), pipes);
      }
    }
  }

  /** A blank text free of plain cuts is free of pipe cuts too, so it splits into nothing. */
  lemma {:induction false} BlankSplitsToNothing(s: string, pipes: bool)
    requires Blank(s)
    ensures Split(s, pipes) == []
    decreases |s|
  {
    hide Split, Cut, FirstCut, SeparatorWidth, IsSpace;
    var cut := Cut(s, pipes);
    SplitAtCut(s, pipes, cut.0, cut.1);
    if cut.1 > 0 {
      BlankSplitsToNothing(s[cut.0 + cut.1..], pipes);
    }
  }

  lemma SegmentSplits(s: string)
    ensures SplitEach(Segment(s), true) == Split(s, true)
  {
    if Blank(s) {
      BlankSplitsToNothing(s, true);
    } else {
      assert SplitEach([s], true) == Split(s, true) + SplitEach([], true);
    }
  }

  /** The refinement step at a pipe cut j that lies before the plain cut i. */
  lemma CutAtPipe(s: string, i: nat, w: nat, j: nat)
    requires Cut(s, false) == (i, w) && Cut(s, true).0 == j < i
    ensures Cut(s, true) == (j, 1)
    ensures Cut(s[j + 1..], false) == (i - j - 1, w)
    ensures Cut(s[..i], true) == (j, 1)
  {
    PipeCutsFirst(s, 0, START);
    PlainCutBehindPipe(s, 0, START);
    CutOfSuffix(s, j + 1, 0, START, false);
    CutOfPrefix(s, i, 0, START, true);
  }

  /** The plain parts, split again: those of the first part, then those of the text behind the cut. */
  lemma PlainPartsFirst(s: string, i: nat, w: nat)
    requires Cut(s, false) == (i, w) && w > 0
    ensures SplitEach(Split(s, false), true) == Split(s[..i], true) + SplitEach(Split(s[i + w..], false), true)
  {
    var rest := Split(s[i + w..], false);
    calc {
      SplitEach(Split(s, false), true);
      SplitEach(Segment(s[..i]) + rest, true);
      { SplitEachAppend(Segment(s[..i]), rest, true); }
      SplitEach(Segment(s[..i]), true) + SplitEach(rest, true);
      { SegmentSplits(s[..i]); }
      Split(s[..i], true) + SplitEach(rest, true);
    }
  }

  /** Pipe mode refines plain mode: splitting at pipes as well is the same as splitting plainly and then
      splitting every part at pipes. */
  lemma {:induction false} PipeModeRefines(s: string)
    ensures Split(s, true) == SplitEach(Split(s, false), true)
    decreases |s|
  {
    hide Split;
    var i, w := Cut(s, false).0, Cut(s, false).1;
    var j := Cut(s, true).0;
    PipeCutsFirst(s, 0, START);
    if j < i {
      PipeModeRefines(s[j + 1..]);
      RefineAtPipe(s, i, w, j);
    } else if w > 0 {
      PipeModeRefines(s[i + w..]);
      PlainPartsFirst(s, i, w);
      CutOfPrefix(s, i, 0, START, true);
      SplitAtCut(s[..i], true, i, 0);
      SplitAtCut(s, true, i, w);
    } else {
      SplitAtCut(s, false, i, w);
      SegmentSplits(s);
    }
  }

  lemma RefineAtPipe(s: string, i: nat, w: nat, j: nat)
    requires Cut(s, false) == (i, w) && Cut(s, true).0 == j < i
    requires Split(s[j + 1..], true) == SplitEach(Split(s[j + 1..], false), true)
    ensures Split(s, true) == SplitEach(Split(s, false), true)
  {
    hide Split;
    var t := s[j + 1..];
    CutAtPipe(s, i, w, j);
    if w > 0 {
      var first, mid, rest := Segment(s[..j]), Split(s[..i][j + 1..], true), SplitEach(Split(s[i + w..], false), true);
      calc {
        Split(s, true);
        { SplitAtCut(s, true, j, 1); }
        first + Split(t, true);
        { assert t[..i - j - 1] == s[..i][j + 1..] && t[i - j - 1 + w..] == s[i + w..];
          PlainPartsFirst(t, i - j - 1, w); }
        first + (mid + rest);
        (first + mid) + rest;
        { assert s[..i][..j] == s[..j]; SplitAtCut(s[..i], true, j, 1); }
        Split(s[..i], true) + rest;
        { PlainPartsFirst(s, i, w); }
        SplitEach(Split(s, false), true);
      }
    } else {
      SplitAtCut(s, false, i, 0);
      SegmentSplits(s);
    }
  }

  // ---------------------------------------------------------------- normal form

  /** A segment holds no cut of its own. */
  lemma {:induction false} NoCutInside(s: string, i: nat, st: Lex, pipes: bool)
    requires i <= |s|
    ensures var e := FirstCut(s, i, st, pipes).0; FirstCut(s[..e], i, st, pipes) == (e, 0)
    decreases |s| - i
  {
    var e := FirstCut(s, i, st, pipes).0;
    if i < e {
      assert SeparatorWidth(s[..e], i, pipes) <= SeparatorWidth(s, i, pipes);
      NoCutInside(s, i + 1, st.After(s[i]), pipes);
    }
  }

  /** A segment that ended at a cut still ends there when a semicolon follows it instead. */
  lemma {:induction false} CutAtSemicolon(s: string, i: nat, st: Lex, pipes: bool, t: string)
    requires i <= |s| && FirstCut(s, i, st, pipes).1 > 0
    ensures var e := FirstCut(s, i, st, pipes).0; FirstCut(s[..e] + ";" + t, i, st, pipes) == (e, 1)
    decreases |s| - i
  {
    var e := FirstCut(s, i, st, pipes).0;
    var u := s[..e] + ";" + t;
    assert u[e] == ';';
    if i < e {
      assert u[i] == s[i];
      assert SeparatorWidth(u, i, pipes) <= SeparatorWidth(s, i, pipes);
      CutAtSemicolon(s, i + 1, st.After(s[i]), pipes, t);
    }
  }

  lemma SegmentIsSplit(s: string, pipes: bool)
    ensures var g := s[..Cut(s, pipes).0]; Split(g, pipes) == Segment(g)
  {
    hide Split;
    var i := Cut(s, pipes).0;
    NoCutInside(s, 0, START, pipes);
    SplitAtCut(s[..i], pipes, i, 0);
  }

  /** The segments, put back together with semicolons, split into the same segments: blank segments and the
      kind of separator are all that a split forgets. */
  lemma {:induction false} SplitOfJoin(s: string, pipes: bool)
    ensures Split(Join(Split(s, pipes), ";"), pipes) == Split(s, pipes)
    decreases |s|
  {
    hide Split, FirstCut;
    var i, w := Cut(s, pipes).0, Cut(s, pipes).1;
    var g := s[..i];
    SplitAtCut(s, pipes, i, w);
    SegmentIsSplit(s, pipes);
    BlankSplitsToNothing("", pipes);
    if w == 0 {
      assert g == s;
    } else {
      var rest := Split(s[i + w..], pipes);
      SplitOfJoin(s[i + w..], pipes);
      if Blank(g) {
        assert Split(s, pipes) == rest;
      } else if rest == [] {
        assert Split(s, pipes) == [g];
      } else {
        var t := Join(rest, ";");
        CutAtSemicolon(s, 0, START, pipes, t);
        var u := g + ";" + t;
        SplitAtCut(u, pipes, i, 1);
        assert u[..i] == g && u[i + 1..] == t;
        assert Join([g] + rest, ";") == u;
      }
    }
  }

  /** Nothing is cut between quotes: neither separators nor, between single quotes, backslashes count. */
  lemma {:induction false} QuotedScan(q: char, body: string, i: nat, pipes: bool)
    requires q == '\'' || q == '"'
    requires i <= |body|
    requires q !in body && (q == '"' ==> '\\' !in body)
    ensures FirstCut([q] + body + [q], i + 1, Lex(q == '\'', q == '"', false), pipes) == (|body| + 2, 0)
    decreases |body| - i
  {
    var s := [q] + body + [q];
    if i < |body| {
      assert s[i + 1] == body[i] && body[i] in body;
      QuotedScan(q, body, i + 1, pipes);
    } else {
      assert FirstCut(s, |s|, START, pipes) == (|s|, 0);
    }
  }

  lemma QuoteIsNoSpace(q: char)
    requires q == '\'' || q == '"'
    ensures !IsSpace(q)
  {}

  lemma QuotedHasNoCut(q: char, body: string, pipes: bool)
    requires q == '\'' || q == '"'
    requires q !in body && (q == '"' ==> '\\' !in body)
    ensures Cut([q] + body + [q], pipes) == (|body| + 2, 0)
  {
    var s := [q] + body + [q];
    QuotedScan(q, body, 0, pipes);
    assert s[0] == q;
  }

  lemma QuotedIsWhole(q: char, body: string, pipes: bool)
    requires q == '\'' || q == '"'
    requires q !in body && (q == '"' ==> '\\' !in body)
    ensures Split([q] + body + [q], pipes) == [[q] + body + [q]]
  {
    hide IsSpace, Split, FirstCut, Cut;
    var s := [q] + body + [q];
    QuotedHasNoCut(q, body, pipes);
    SplitAtCut(s, pipes, |s|, 0);
    assert s[0] == q && !IsSpace(q) by { QuoteIsNoSpace(q); }
  }

  // ---------------------------------------------------------------- conservation

  /** The lexer's state before index k of s, by going through s from its start. */
  function StateAt(s: string, k: nat): Lex
    requires k <= |s|
  {
    if k == 0 then START else StateAt(s, k - 1).After(s[k - 1])
  }

  /** A separator stands at index k of s, outside quotes and escapes. */
  predicate CutsAt(s: string, k: nat, pipes: bool)
    requires k < |s|
  {
    StateAt(s, k).Neutral() && SeparatorWidth(s, k, pipes) > 0
  }

  /** A piece between two separators: no cut inside, and not within quotes at its end unless it is the last. */
  ghost predicate Piece(p: string, last: bool, pipes: bool) {
    && (forall k | 0 <= k < |p| :: !CutsAt(p, k, pipes))
    && (last || StateAt(p, |p|).Neutral())
  }

  predicate Separator(sep: string, pipes: bool) {
    sep in ["\n", "\r", ";", "&&", "||"] || (pipes && sep == "|")
  }

  /** Pieces and the separators between them, put back together. */
  function Woven(pieces: seq<string>, seps: seq<string>): string
    requires |pieces| == |seps| + 1
  {
    if seps == [] then pieces[0] else pieces[0] + seps[0] + Woven(pieces[1..], seps[1..])
  }

  function NonBlank(pieces: seq<string>): seq<string> {
    if pieces == [] then [] else Segment(pieces[0]) + NonBlank(pieces[1..])
  }

  lemma {:induction false} StateOfPrefix(s: string, e: nat, k: nat)
    requires k <= e <= |s|
    ensures StateAt(s[..e], k) == StateAt(s, k)
  {
    if k > 0 {
      StateOfPrefix(s, e, k - 1);
    }
  }

  /** The cut is the first place, if any, where a separator stands outside quotes and escapes. */
  lemma {:induction false} CutIsFirst(s: string, i: nat, pipes: bool)
    requires i <= |s|
    ensures var (e, w) := FirstCut(s, i, StateAt(s, i), pipes);
            && (forall k | i <= k < e :: !CutsAt(s, k, pipes))
            && (w > 0 <==> e < |s|)
            && (e < |s| ==> CutsAt(s, e, pipes))
    decreases |s| - i
  {
    if i < |s| && !CutsAt(s, i, pipes) {
      CutIsFirst(s, i + 1, pipes);
    }
  }

  lemma SeparatorText(s: string, i: nat, pipes: bool)
    requires i < |s| && SeparatorWidth(s, i, pipes) > 0
    ensures Separator(s[i..i + SeparatorWidth(s, i, pipes)], pipes)
  {
    if SeparatorWidth(s, i, pipes) == 1 {
      assert s[i..i + 1] == [s[i]];
    } else {
      assert s[i..i + 2] == [s[i], s[i]];
    }
  }

  lemma PieceBeforeCut(s: string, pipes: bool)
    ensures var (e, w) := Cut(s, pipes);
            && Piece(s[..e], w == 0, pipes)
            && (w > 0 ==> Separator(s[e..e + w], pipes))
  {
    var (e, w) := Cut(s, pipes);
    CutIsFirst(s, 0, pipes);
    forall k | 0 <= k < e ensures !CutsAt(s[..e], k, pipes) {
      StateOfPrefix(s, e, k);
      assert SeparatorWidth(s[..e], k, pipes) <= SeparatorWidth(s, k, pipes);
      assert !CutsAt(s, k, pipes);
    }
    StateOfPrefix(s, e, e);
    if w > 0 {
      SeparatorText(s, e, pipes);
    }
  }

  lemma ThreeParts(s: string, e: nat, w: nat)
    requires e + w <= |s|
    ensures s == s[..e] + s[e..e + w] + s[e + w..]
  {}

  /** Nothing is lost but blank pieces: every text is its pieces with separators woven in, and the segments are the
      pieces that are not blank, unchanged and in order. */
  lemma {:induction false} SplitConserves(s: string, pipes: bool) returns (pieces: seq<string>, seps: seq<string>)
    ensures |pieces| == |seps| + 1
    ensures Woven(pieces, seps) == s
    ensures Split(s, pipes) == NonBlank(pieces)
    ensures forall k | 0 <= k < |pieces| :: Piece(pieces[k], k == |seps|, pipes)
    ensures forall k | 0 <= k < |seps| :: Separator(seps[k], pipes)
    decreases |s|
  {
    hide Split, Segment, Piece, Separator, Cut;
    var (e, w) := Cut(s, pipes);
    PieceBeforeCut(s, pipes);
    SplitAtCut(s, pipes, e, w);
    pieces, seps := [s[..e]], [];
    if w == 0 {
      assert s[..e] == s;
    } else {
      var morePieces, moreSeps := SplitConserves(s[e + w..], pipes);
      pieces, seps := pieces + morePieces, [s[e..e + w]] + moreSeps;
      assert pieces[1..] == morePieces && seps[1..] == moreSeps;
      ThreeParts(s, e, w);
      forall k | 0 <= k < |pieces| ensures Piece(pieces[k], k == |seps|, pipes) {
        assert k > 0 ==> pieces[k] == morePieces[k - 1];
      }
      forall k | 0 <= k < |seps| ensures Separator(seps[k], pipes) {
        assert k > 0 ==> seps[k] == moreSeps[k - 1];
      }
    }
  }
}
