/** The patch format as a relation between lines and hunks, without reading: the reference for what the parser of
    src/agents/apply-patch.ts accepts, and for each of its errors. */
module PatchFormat {
  import opened Text
  import opened PatchUpdate
  import opened PatchParser

  // ---------------------------------------------------------------- chunks

  predicate BodyLine(line: string) {
    line != "" ==> line[0] in {' ', '+', '-'}
  }

  /** A line of a hunk, or of none: no chunk begins with it. */
  predicate Starred(line: string) {
    "***" <= line
  }

  predicate ContextLine(line: string) {
    line == "@@" || "@@ " <= line
  }

  /** The body lines that do not bear the mark, each without its first character. */
  function Without(body: seq<string>, mark: char): seq<string> {
    if body == [] then []
    else
      var line := body[0];
      (if line == "" then [""] else if line[0] == mark then [] else [line[1..]]) + Without(body[1..], mark)
  }

  function ContextCount(lines: seq<string>): nat {
    if lines != [] && ContextLine(lines[0]) then 1 else 0
  }

  /** A context line, which only the first chunk may lack, then body lines, then perhaps the end-of-file mark. */
  predicate ChunkBlock(lines: seq<string>, c: Chunk, first: bool) {
    var h, e := ContextCount(lines), if c.isEndOfFile then 1 else 0;
    && h + e < |lines|
    && (if h == 0 then first && c.changeContext == None
        else lines[0] == if c.changeContext.None? then "@@" else "@@ " + c.changeContext.value)
    && (c.isEndOfFile ==> lines[|lines| - 1] == "*** End of File")
    && (forall k :: h <= k < |lines| - e ==> BodyLine(lines[k]))
    && c.oldLines == Without(lines[h..|lines| - e], '+')
    && c.newLines == Without(lines[h..|lines| - e], '-')
  }

  /** The chunk cannot go on with the lines that follow it. */
  predicate ChunkEnds(c: Chunk, rest: seq<string>) {
    c.isEndOfFile || rest == [] || (!BodyLine(rest[0]) && rest[0] != "*** End of File")
  }

  predicate ChunkFails(lines: seq<string>, lineNumber: nat, first: bool, e: ParseError) {
    var h := ContextCount(lines);
    if lines == [] then e == NoLines(lineNumber)
    else if h == 0 && !first then e == ContextExpected(lineNumber, lines[0])
    else if h == |lines| || lines[h] == "*** End of File" then e == NoLines(lineNumber + 1)
    else !BodyLine(lines[h]) && e == UnexpectedLine(lineNumber + 1, lines[h])
  }

  /** The n lines up to the next hunk, or to the end, are the chunks, with blank lines before and between them. */
  ghost predicate Chunks(lines: seq<string>, n: nat, chunks: seq<Chunk>, first: bool)
    decreases |chunks|
  {
    && n <= |lines|
    && if chunks == [] then
         && (forall k :: 0 <= k < n ==> Blank(lines[k]))
         && (n == |lines| || Starred(lines[n]))
       else
         exists b: nat, m: nat ::
           && ChunkAt(lines, b, m, chunks[0], first) && b + m <= n
           && Chunks(lines[b + m..], n - b - m, chunks[1..], false)
  }

  /** A chunk of m lines behind b blank ones. */
  ghost predicate ChunkAt(lines: seq<string>, b: nat, m: nat, c: Chunk, first: bool) {
    && ChunkBegins(lines, b) && b + m <= |lines|
    && ChunkBlock(lines[b..b + m], c, first) && ChunkEnds(c, lines[b + m..])
  }

  /** Neither blank nor the line of a hunk. */
  ghost predicate ChunkBegins(lines: seq<string>, b: nat) {
    && b < |lines| && (forall k :: 0 <= k < b ==> Blank(lines[k]))
    && !Blank(lines[b]) && !Starred(lines[b])
  }

  ghost predicate ChunksFail(lines: seq<string>, lineNumber: nat, first: bool, e: ParseError)
    decreases |lines|
  {
    exists b: nat :: b < |lines| && ChunkBegins(lines, b) &&
      (|| ChunkFails(lines[b..], lineNumber + b, first, e)
       || exists m: nat, c :: 0 < m <= |lines| - b && ChunkAt(lines, b, m, c, first)
                              && ChunksFail(lines[b + m..], lineNumber + b + m, false, e))
  }

  // ---------------------------------------------------------------- hunks

  /** Added lines with a line feed each. */
  function AddedText(lines: seq<string>): string
    requires forall k :: 0 <= k < |lines| ==> "+" <= lines[k]
  {
    if lines == [] then "" else lines[0][1..] + "\n" + AddedText(lines[1..])
  }

  predicate MoveFollows(lines: seq<string>) {
    |lines| > 1 && "*** Move to: " <= Trim(lines[1])
  }

  function HeaderCount(lines: seq<string>): nat {
    if MoveFollows(lines) then 2 else 1
  }

  /** The first n lines are the hunk. */
  ghost predicate HunkBlock(lines: seq<string>, n: nat, h: Hunk) {
    && 0 < n <= |lines|
    && match h
       case DeleteFile(path) => n == 1 && Trim(lines[0]) == "*** Delete File: " + path
       case AddFile(path, contents) =>
         && Trim(lines[0]) == "*** Add File: " + path
         && (forall k :: 0 < k < n ==> "+" <= lines[k])
         && (n < |lines| ==> !("+" <= lines[n]))
         && contents == AddedText(lines[1..n])
       case UpdateFile(path, move, chunks) =>
         && Trim(lines[0]) == "*** Update File: " + path
         && (if MoveFollows(lines) then move.Some? && Trim(lines[1]) == "*** Move to: " + move.value else move == None)
         && HeaderCount(lines) <= n
         && chunks != [] && Chunks(lines[HeaderCount(lines)..], n - HeaderCount(lines), chunks, true)
  }

  ghost predicate HunkFails(lines: seq<string>, lineNumber: nat, e: ParseError) {
    if lines == [] then e == EmptyHunk(lineNumber)
    else
      var header := Trim(lines[0]);
      || (NoHeader(header) && e == BadHeader(lineNumber, lines[0]))
      || (UpdateHeader(header) && UpdateFails(lines, header, lineNumber, e))
  }

  /** A chunk fails, or there is none. */
  ghost predicate UpdateFails(lines: seq<string>, header: string, lineNumber: nat, e: ParseError)
    requires lines != []
  {
    var body := lines[HeaderCount(lines)..];
    || ChunksFail(body, lineNumber + HeaderCount(lines), true, e)
    || (EmptyUpdateOf(header, lineNumber, e) && NoChunks(body))
  }

  ghost predicate NoChunks(body: seq<string>) {
    exists n: nat :: Chunks(body, n, [], true)
  }

  predicate NoHeader(header: string) {
    !("*** Add File: " <= header) && !("*** Delete File: " <= header) && !UpdateHeader(header)
  }

  predicate UpdateHeader(header: string) {
    "*** Update File: " <= header
  }

  predicate EmptyUpdateOf(header: string, lineNumber: nat, e: ParseError) {
    e.EmptyUpdate? && e.line == lineNumber && header == "*** Update File: " + e.path
  }

  /** The lines are the hunks, one block each. */
  ghost predicate Hunks(lines: seq<string>, hunks: seq<Hunk>)
    decreases |hunks|
  {
    if hunks == [] then lines == []
    else exists n: nat :: HunkBlock(lines, n, hunks[0]) && Hunks(lines[n..], hunks[1..])
  }

  /** Behind lines that are hunks, one fails. */
  ghost predicate HunksFail(lines: seq<string>, lineNumber: nat, e: ParseError)
    decreases |lines|
  {
    && lines != []
    && (|| HunkFails(lines, lineNumber, e)
        || exists n: nat, h :: 0 < n <= |lines| && HunkBlock(lines, n, h) && HunksFail(lines[n..], lineNumber + n, e))
  }

  // ---------------------------------------------------------------- patches

  predicate Bounds(lines: seq<string>) {
    |lines| >= 2 && Trim(lines[0]) == "*** Begin Patch" && Trim(lines[|lines| - 1]) == "*** End Patch"
  }

  predicate Heredoc(lines: seq<string>) {
    && |lines| >= 4 && lines[0] in {"<<EOF", "<<'EOF'", "<<\"EOF\""}
    && |lines[|lines| - 1]| >= 3 && lines[|lines| - 1][|lines[|lines| - 1]| - 3..] == "EOF"
  }

  function Inner(lines: seq<string>): seq<string>
    requires |lines| >= 2
  {
    lines[1..|lines| - 1]
  }

  /** The hunks' lines: inside the two bounds, which may stand inside a heredoc. */
  predicate Framed(lines: seq<string>, inner: seq<string>) {
    || (Bounds(lines) && inner == Inner(lines))
    || (Heredoc(lines) && Bounds(Inner(lines)) && inner == Inner(Inner(lines)))
  }

  predicate BoundsFail(lines: seq<string>, e: ParseError) {
    if lines == [] || Trim(lines[0]) != "*** Begin Patch" then e == FirstLineWrong
    else Trim(lines[|lines| - 1]) != "*** End Patch" && e == LastLineWrong
  }

  predicate FrameFails(lines: seq<string>, e: ParseError) {
    BoundsFail(if Heredoc(lines) then Inner(lines) else lines, e)
  }

  ghost predicate Patch(text: string, hunks: seq<Hunk>) {
    !Blank(text) && exists inner :: Framed(TextLines(Trim(text)), inner) && Hunks(inner, hunks)
  }

  ghost predicate PatchFails(text: string, e: ParseError) {
    if Blank(text) then e == EmptyInput
    else
      || FrameFails(TextLines(Trim(text)), e)
      || exists inner :: Framed(TextLines(Trim(text)), inner) && HunksFail(inner, 2, e)
  }

  // ---------------------------------------------------------------- the parser meets it: chunks

  lemma SameBodyLine(line: string)
    ensures BodyLine(line) <==> IsBodyLine(line)
    ensures line == "*** End of File" ==> !BodyLine(line)
  {}

  lemma SameContext(line: string)
    ensures ReadContext(line).1 == if ContextLine(line) then 1 else 0
    ensures ContextLine(line) ==> forall c: Option<string> ::
              ReadContext(line).0 == c <==> line == if c.None? then "@@" else "@@ " + c.value
    ensures !ContextLine(line) ==> ReadContext(line).0 == None
    ensures ContextLine(line) ==> !BodyLine(line)
  {
    forall c: Option<string> | ContextLine(line)
      ensures ReadContext(line).0 == c <==> line == if c.None? then "@@" else "@@ " + c.value
    {
      if c.Some? {
        assert ("@@ " + c.value)[3..] == c.value;
        assert line == "@@ " + c.value ==> "@@ " <= line;
        assert "@@ " <= line ==> line == "@@ " + line[3..];
      }
    }
  }

  lemma WithoutLine(line: string, rest: seq<string>)
    requires BodyLine(line)
    ensures Without([line] + rest, '+') == OldOf(line) + Without(rest, '+')
    ensures Without([line] + rest, '-') == NewOf(line) + Without(rest, '-')
  {
    assert ([line] + rest)[1..] == rest;
  }

  /** How many body lines stand at the beginning. */
  function BodyCount(lines: seq<string>): (m: nat)
    ensures m <= |lines| && (forall k :: 0 <= k < m ==> BodyLine(lines[k])) && (m < |lines| ==> !BodyLine(lines[m]))
  {
    if lines == [] || !BodyLine(lines[0]) then 0 else 1 + BodyCount(lines[1..])
  }

  lemma {:induction false} ReadBodyMeaning(lines: seq<string>)
    ensures var b, m := ReadBody(lines), BodyCount(lines);
            && b.oldLines == Without(lines[..m], '+') && b.newLines == Without(lines[..m], '-')
            && (b.isEndOfFile <==> m < |lines| && lines[m] == "*** End of File")
            && b.count == m + if b.isEndOfFile then 1 else 0
  {
    hide OldOf, NewOf, BodyLine, IsBodyLine, ReadBody, BodyCount, Without;
    if lines == [] {
      NoBody(lines);
    } else {
      var line, rest := lines[0], lines[1..];
      assert lines == [line] + rest;
      SameBodyLine(line);
      if BodyLine(line) {
        var m := BodyCount(rest);
        ReadBodyMeaning(rest);
        ReadBodyLine(line, rest);
        CountBodyLine(line, rest);
        assert lines[..m + 1] == [line] + rest[..m];
        WithoutLine(line, rest[..m]);
        assert m < |rest| ==> lines[m + 1] == rest[m];
      } else {
        NoBody(lines);
        assert lines[..0] == [];
      }
    }
  }

  lemma NoBody(lines: seq<string>)
    requires lines == [] || !IsBodyLine(lines[0])
    ensures BodyCount(lines) == 0 && Without([], '+') == [] && Without([], '-') == []
    ensures ReadBody(lines)
         == if lines != [] && lines[0] == "*** End of File" then Body([], [], true, 1) else Body([], [], false, 0)
  {
    if lines != [] {
      SameBodyLine(lines[0]);
    }
    hide BodyLine, IsBodyLine;
  }

  lemma CountBodyLine(line: string, rest: seq<string>)
    requires BodyLine(line)
    ensures BodyCount([line] + rest) == 1 + BodyCount(rest)
  {
    hide BodyLine;
    assert ([line] + rest)[1..] == rest;
  }

  lemma BodyCountIs(lines: seq<string>, m: nat)
    requires m <= |lines| && (forall k :: 0 <= k < m ==> BodyLine(lines[k])) && (m < |lines| ==> !BodyLine(lines[m]))
    ensures BodyCount(lines) == m
  {
    hide BodyLine;
  }

  /** A chunk's text, given where its body begins and how many lines that has. */
  lemma BlockIff(lines: seq<string>, c: Chunk, first: bool, n: nat)
    requires 0 < n <= |lines|
    ensures var h, m, e := ContextCount(lines), BodyCount(lines[ContextCount(lines)..]), if c.isEndOfFile then 1 else 0;
            ChunkBlock(lines[..n], c, first) && ChunkEnds(c, lines[n..]) <==>
              && n == h + m + e && m > 0
              && (if h == 0 then first && c.changeContext == None
                  else lines[0] == if c.changeContext.None? then "@@" else "@@ " + c.changeContext.value)
              && (c.isEndOfFile <==> h + m < |lines| && lines[h + m] == "*** End of File")
              && c.oldLines == Without(lines[h..][..m], '+') && c.newLines == Without(lines[h..][..m], '-')
  {
    hide BodyLine, Without, ContextLine, ChunkBlock;
    var h := ContextCount(lines);
    var body, e := lines[h..], if c.isEndOfFile then 1 else 0;
    var m := BodyCount(body);
    SameBodyLine("*** End of File");
    BlockOf(lines, c, first, n);
    if ChunkBlock(lines[..n], c, first) && ChunkEnds(c, lines[n..]) {
      assert n < |lines| ==> lines[n..][0] == lines[n] == body[n - h];
      assert e == 1 ==> body[n - h - e] == lines[n - 1];
      BodyCountIs(body, n - h - e);
    } else if n == h + m + e && n < |lines| {
      assert lines[n..][0] == lines[n] == body[n - h];
    }
  }

  lemma SameSlice(lines: seq<string>, i: nat, j: nat, n: nat)
    requires i <= j <= n <= |lines|
    ensures lines[..n][i..j] == lines[i..][..j - i]
  {}

  /** The first n lines as a block, in terms of the lines behind the context line. */
  lemma BlockOf(lines: seq<string>, c: Chunk, first: bool, n: nat)
    requires 0 < n <= |lines|
    ensures var h, e := ContextCount(lines), if c.isEndOfFile then 1 else 0;
            ChunkBlock(lines[..n], c, first) <==>
              && h + e < n
              && (if h == 0 then first && c.changeContext == None
                  else lines[0] == if c.changeContext.None? then "@@" else "@@ " + c.changeContext.value)
              && (c.isEndOfFile ==> lines[n - 1] == "*** End of File")
              && (forall k :: 0 <= k < n - h - e ==> BodyLine(lines[h..][k]))
              && c.oldLines == Without(lines[h..][..n - h - e], '+')
              && c.newLines == Without(lines[h..][..n - h - e], '-')
  {
    hide BodyLine, Without, ContextLine;
    var block, h, e := lines[..n], ContextCount(lines), if c.isEndOfFile then 1 else 0;
    assert ContextCount(block) == h;
    if h + e < n {
      SameSlice(lines, h, n - e, n);
      assert forall k :: h <= k < n - e ==> block[k] == lines[h..][k - h];
      assert forall k :: 0 <= k < n - h - e ==> lines[h..][k] == block[h + k];
    }
  }

  /** What the parser reads as a chunk is one, and its errors are those of the format. */
  lemma ReadChunkIff(lines: seq<string>, lineNumber: nat, first: bool)
    ensures forall c, n: nat :: ReadChunk(lines, lineNumber, first) == Ok((c, n)) <==>
              0 < n <= |lines| && ChunkBlock(lines[..n], c, first) && ChunkEnds(c, lines[n..])
    ensures forall e :: ReadChunk(lines, lineNumber, first) == Err(e) <==> ChunkFails(lines, lineNumber, first, e)
  {
    hide BodyLine, IsBodyLine, Without, ContextLine, ReadContext, ReadBody;
    if lines != [] {
      SameContext(lines[0]);
      var h := ContextCount(lines);
      assert lines[0..] == lines;
      ReadBodyMeaning(lines[h..]);
      if h < |lines| {
        SameBodyLine(lines[h]);
      }
      forall c, n: nat | 0 < n <= |lines|
        ensures ReadChunk(lines, lineNumber, first) == Ok((c, n)) <==>
                  ChunkBlock(lines[..n], c, first) && ChunkEnds(c, lines[n..])
      {
        BlockIff(lines, c, first, n);
      }
    }
  }

  lemma BlankIff(line: string)
    ensures Blank(line) <==> Trim(line) == ""
    ensures Starred(line) ==> !Blank(line)
  {
    hide Trim;
    TrimEnds(line);
    if Starred(line) {
      assert line[0] == '*';
    }
  }

  lemma BeginsBehindBlank(lines: seq<string>, b: nat)
    requires lines != [] && Blank(lines[0])
    ensures ChunkBegins(lines, b) <==> b > 0 && ChunkBegins(lines[1..], b - 1)
  {
    hide Blank, Starred;
    if b > 0 {
      assert forall k :: 0 <= k < b && k < |lines| - 1 ==> lines[1..][k] == lines[k + 1];
      if ChunkBegins(lines[1..], b - 1) {
        forall k | 0 <= k < b ensures Blank(lines[k]) {
          assert k > 0 ==> lines[1..][k - 1] == lines[k];
        }
      }
    }
  }

  lemma ChunkAtBehindBlank(lines: seq<string>, b: nat, m: nat, c: Chunk, first: bool)
    requires lines != [] && Blank(lines[0])
    ensures ChunkAt(lines, b, m, c, first) <==> b > 0 && ChunkAt(lines[1..], b - 1, m, c, first)
  {
    hide Blank, Starred, ChunkBegins, ChunkBlock, ChunkEnds;
    BeginsBehindBlank(lines, b);
    if b > 0 && b + m <= |lines| {
      assert lines[1..][b - 1..b - 1 + m] == lines[b..b + m] && lines[1..][b - 1 + m..] == lines[b + m..];
    }
  }

  /** Blank lines only, up to the next hunk or the end. */
  predicate NoneIn(lines: seq<string>, n: nat) {
    && n <= |lines| && (forall k :: 0 <= k < n ==> Blank(lines[k]))
    && (n == |lines| || Starred(lines[n]))
  }

  lemma NoneInIff(lines: seq<string>, n: nat, first: bool)
    ensures Chunks(lines, n, [], first) <==> NoneIn(lines, n)
  {
    hide Blank, Starred;
  }

  lemma NoneBehindBlank(lines: seq<string>, n: nat)
    requires lines != [] && Blank(lines[0])
    ensures NoneIn(lines, n) <==> n > 0 && NoneIn(lines[1..], n - 1)
  {
    hide Blank, Starred, NoneIn;
    if NoneIn(lines, n) {
      SomeIsBlank(lines, n);
      NoneInTail(lines, n);
    }
    if n > 0 && NoneIn(lines[1..], n - 1) {
      NoneInMore(lines, n);
    }
  }

  lemma SomeIsBlank(lines: seq<string>, n: nat)
    requires lines != [] && Blank(lines[0]) && NoneIn(lines, n)
    ensures n > 0
  {
    hide Blank, Starred;
    BlankIff(lines[0]);
  }

  lemma NoneInMore(lines: seq<string>, n: nat)
    requires lines != [] && Blank(lines[0]) && n > 0 && NoneIn(lines[1..], n - 1)
    ensures NoneIn(lines, n)
  {
    hide Blank, Starred;
    var rest := lines[1..];
    forall k | 0 <= k < n ensures Blank(lines[k]) {
      assert k > 0 ==> rest[k - 1] == lines[k];
    }
    assert n < |lines| ==> rest[n - 1] == lines[n];
  }

  lemma NoneInTail(lines: seq<string>, n: nat)
    requires lines != [] && n > 0 && NoneIn(lines, n)
    ensures NoneIn(lines[1..], n - 1)
  {
    hide Blank, Starred;
    forall k | 0 <= k < n - 1 ensures Blank(lines[1..][k]) {
      assert lines[1..][k] == lines[k + 1];
    }
    assert n < |lines| ==> lines[1..][n - 1] == lines[n];
  }

  lemma NoChunksBehindBlank(lines: seq<string>, n: nat, first: bool)
    requires lines != [] && Blank(lines[0])
    ensures Chunks(lines, n, [], first) <==> n > 0 && Chunks(lines[1..], n - 1, [], first)
  {
    hide Blank, Starred, Chunks, NoneIn;
    NoneInIff(lines, n, first);
    NoneBehindBlank(lines, n);
    if n > 0 {
      NoneInIff(lines[1..], n - 1, first);
    }
  }

  lemma ChunksBehindBlank(lines: seq<string>, n: nat, chunks: seq<Chunk>, first: bool)
    requires lines != [] && Blank(lines[0])
    ensures Chunks(lines, n, chunks, first) <==> n > 0 && Chunks(lines[1..], n - 1, chunks, first)
  {
    hide Blank, Starred, ChunkAt, Chunks, FirstChunk;
    if chunks == [] {
      NoChunksBehindBlank(lines, n, first);
    } else {
      SomeChunks(lines, n, chunks, first);
      if b: nat, m: nat :| FirstChunk(lines, n, chunks, first, b, m) {
        FirstChunkBehindBlank(lines, n, chunks, first, b, m);
        SomeChunks(lines[1..], n - 1, chunks, first);
      }
      if n > 0 {
        var rest, fewer := lines[1..], n - 1;
        SomeChunks(rest, fewer, chunks, first);
        if b: nat, m: nat :| FirstChunk(rest, fewer, chunks, first, b, m) {
          FirstChunkBehindBlank(lines, n, chunks, first, b + 1, m);
        }
      }
    }
  }

  lemma FirstChunkBehindBlank(lines: seq<string>, n: nat, chunks: seq<Chunk>, first: bool, b: nat, m: nat)
    requires lines != [] && Blank(lines[0])
    ensures FirstChunk(lines, n, chunks, first, b, m) <==>
              b > 0 && n > 0 && FirstChunk(lines[1..], n - 1, chunks, first, b - 1, m)
  {
    hide Blank, Starred, ChunkAt, Chunks;
    if chunks != [] && b + m <= n <= |lines| {
      ChunkAtBehindBlank(lines, b, m, chunks[0], first);
      if b > 0 {
        assert lines[1..][b - 1 + m..] == lines[b + m..];
      }
    }
  }

  /** The first of several chunks, and the others behind it. */
  ghost predicate FirstChunk(lines: seq<string>, n: nat, chunks: seq<Chunk>, first: bool, b: nat, m: nat) {
    && b + m <= n <= |lines| && chunks != [] && ChunkAt(lines, b, m, chunks[0], first)
    && Chunks(lines[b + m..], n - b - m, chunks[1..], false)
  }

  lemma SomeChunks(lines: seq<string>, n: nat, chunks: seq<Chunk>, first: bool)
    requires chunks != []
    ensures Chunks(lines, n, chunks, first) <==> exists b: nat, m: nat :: FirstChunk(lines, n, chunks, first, b, m)
  {
    hide ChunkAt;
    if Chunks(lines, n, chunks, first) {
      var b: nat, m: nat :| && ChunkAt(lines, b, m, chunks[0], first) && b + m <= n
                            && Chunks(lines[b + m..], n - b - m, chunks[1..], false);
      assert FirstChunk(lines, n, chunks, first, b, m);
    }
  }

  lemma ChunkAtRange(lines: seq<string>, b: nat, m: nat, c: Chunk, first: bool)
    requires ChunkAt(lines, b, m, c, first)
    ensures b + m <= |lines| && m > 0 && ChunkBegins(lines, b)
  {}

  /** The chunk b lines further on fails, or one behind it does. */
  ghost predicate FailsBehind(lines: seq<string>, lineNumber: nat, first: bool, e: ParseError, b: nat) {
    && b < |lines| && ChunkBegins(lines, b)
    && (|| ChunkFails(lines[b..], lineNumber + b, first, e)
        || exists m: nat, c :: LaterFails(lines, lineNumber, first, e, b, m, c))
  }

  ghost predicate LaterFails(
    lines: seq<string>, lineNumber: nat, first: bool, e: ParseError, b: nat, m: nat, c: Chunk)
  {
    && b + m <= |lines| && m > 0 && ChunkAt(lines, b, m, c, first)
    && ChunksFail(lines[b + m..], lineNumber + b + m, false, e)
  }

  lemma SomeChunkFails(lines: seq<string>, lineNumber: nat, first: bool, e: ParseError)
    ensures ChunksFail(lines, lineNumber, first, e) <==> exists b: nat :: FailsBehind(lines, lineNumber, first, e, b)
  {
    hide ChunkAt, ChunkBegins, ChunkFails;
    if ChunksFail(lines, lineNumber, first, e) {
      var b: nat :| b < |lines| && ChunkBegins(lines, b) &&
        (|| ChunkFails(lines[b..], lineNumber + b, first, e)
         || exists m: nat, c :: 0 < m <= |lines| - b && ChunkAt(lines, b, m, c, first)
                                && ChunksFail(lines[b + m..], lineNumber + b + m, false, e));
      if m: nat, c :| 0 < m <= |lines| - b && ChunkAt(lines, b, m, c, first)
                      && ChunksFail(lines[b + m..], lineNumber + b + m, false, e) {
        assert LaterFails(lines, lineNumber, first, e, b, m, c);
      }
      assert FailsBehind(lines, lineNumber, first, e, b);
    }
    if b: nat :| FailsBehind(lines, lineNumber, first, e, b) {
      if m: nat, c :| LaterFails(lines, lineNumber, first, e, b, m, c) {
        assert ChunksFail(lines, lineNumber, first, e);
      }
    }
  }

  lemma FailsBehindBlank(lines: seq<string>, lineNumber: nat, first: bool, e: ParseError, b: nat)
    requires lines != [] && Blank(lines[0])
    ensures FailsBehind(lines, lineNumber, first, e, b + 1) <==> FailsBehind(lines[1..], lineNumber + 1, first, e, b)
  {
    hide Blank, Starred, ChunkAt, ChunkBegins, ChunkFails, ChunksFail;
    var rest := lines[1..];
    var next, number := b + 1, lineNumber + 1;
    BeginsBehindBlank(lines, next);
    if b < |rest| {
      assert rest[b..] == lines[next..];
      forall m: nat, c
        ensures LaterFails(lines, lineNumber, first, e, next, m, c) <==> LaterFails(rest, number, first, e, b, m, c)
      {
        ChunkAtBehindBlank(lines, next, m, c, first);
        if b + m <= |rest| {
          assert rest[b + m..] == lines[next + m..];
        }
      }
    }
  }

  lemma ChunksFailBehindBlank(lines: seq<string>, lineNumber: nat, first: bool, e: ParseError)
    requires lines != [] && Blank(lines[0])
    ensures ChunksFail(lines, lineNumber, first, e) <==> ChunksFail(lines[1..], lineNumber + 1, first, e)
  {
    hide Blank, Starred, FailsBehind, ChunksFail;
    SomeChunkFails(lines, lineNumber, first, e);
    var rest, number := lines[1..], lineNumber + 1;
    SomeChunkFails(rest, number, first, e);
    if b: nat :| FailsBehind(lines, lineNumber, first, e, b) {
      NotAtBlank(lines, lineNumber, first, e);
      FailsBehindBlank(lines, lineNumber, first, e, b - 1);
    }
    if b: nat :| FailsBehind(rest, number, first, e, b) {
      FailsBehindBlank(lines, lineNumber, first, e, b);
    }
  }

  lemma NotAtBlank(lines: seq<string>, lineNumber: nat, first: bool, e: ParseError)
    requires lines != [] && Blank(lines[0])
    ensures !FailsBehind(lines, lineNumber, first, e, 0)
  {}

  /** At a line that is not blank a chunk begins there, or, at the next hunk, none does. */
  lemma BeginsHere(lines: seq<string>, b: nat)
    requires lines != [] && !Blank(lines[0])
    ensures ChunkBegins(lines, b) <==> b == 0 && !Starred(lines[0])
  {}

  lemma ChunkAtHere(lines: seq<string>, b: nat, m: nat, c: Chunk, first: bool)
    requires lines != [] && !Blank(lines[0]) && !Starred(lines[0])
    ensures ChunkAt(lines, b, m, c, first) <==>
              b == 0 && m <= |lines| && ChunkBlock(lines[..m], c, first) && ChunkEnds(c, lines[m..])
  {
    hide Blank, Starred, ChunkBlock, ChunkEnds, ChunkBegins;
    BeginsHere(lines, b);
    if m <= |lines| {
      assert lines[0..0 + m] == lines[..m] && lines[0 + m..] == lines[m..];
    }
  }

  /** A chunk of m lines right here, and the others behind it. */
  ghost predicate ChunkFirst(lines: seq<string>, n: nat, chunks: seq<Chunk>, first: bool, m: nat) {
    && 0 < m <= n <= |lines| && chunks != [] && ChunkBlock(lines[..m], chunks[0], first)
    && ChunkEnds(chunks[0], lines[m..]) && Chunks(lines[m..], n - m, chunks[1..], false)
  }

  lemma FirstChunkHere(lines: seq<string>, n: nat, chunks: seq<Chunk>, first: bool, b: nat, m: nat)
    requires lines != [] && !Blank(lines[0]) && !Starred(lines[0])
    ensures FirstChunk(lines, n, chunks, first, b, m) <==> b == 0 && ChunkFirst(lines, n, chunks, first, m)
  {
    hide Blank, Starred, ChunkBlock, ChunkEnds, ChunkAt, Chunks;
    if chunks != [] {
      ChunkAtHere(lines, b, m, chunks[0], first);
      if ChunkAt(lines, b, m, chunks[0], first) {
        ChunkAtRange(lines, b, m, chunks[0], first);
      }
    }
  }

  lemma ChunksHere(lines: seq<string>, n: nat, chunks: seq<Chunk>, first: bool)
    requires lines != [] && !Blank(lines[0]) && !Starred(lines[0])
    ensures Chunks(lines, n, chunks, first) <==> exists m: nat :: ChunkFirst(lines, n, chunks, first, m)
  {
    if chunks != [] {
      hide Blank, Starred, Chunks, FirstChunk, ChunkFirst;
      SomeChunks(lines, n, chunks, first);
      if b: nat, m: nat :| FirstChunk(lines, n, chunks, first, b, m) {
        FirstChunkHere(lines, n, chunks, first, b, m);
      }
      if m: nat :| ChunkFirst(lines, n, chunks, first, m) {
        FirstChunkHere(lines, n, chunks, first, 0, m);
      }
    }
  }

  lemma ChunksFailHere(lines: seq<string>, lineNumber: nat, first: bool, e: ParseError)
    requires lines != [] && !Blank(lines[0]) && !Starred(lines[0])
    ensures ChunksFail(lines, lineNumber, first, e) <==>
              || ChunkFails(lines, lineNumber, first, e)
              || exists m: nat, c ::
                   && 0 < m <= |lines| && ChunkBlock(lines[..m], c, first) && ChunkEnds(c, lines[m..])
                   && ChunksFail(lines[m..], lineNumber + m, false, e)
  {
    hide Blank, Starred, ChunkBlock, ChunkEnds, ChunkBegins, ChunkFails, ChunksFail, ChunkAt;
    SomeChunkFails(lines, lineNumber, first, e);
    BeginsHere(lines, 0);
    assert lines[0..] == lines;
    if b: nat :| FailsBehind(lines, lineNumber, first, e, b) {
      BeginsHere(lines, b);
      if m: nat, c :| LaterFails(lines, lineNumber, first, e, b, m, c) {
        ChunkAtHere(lines, b, m, c, first);
      }
    }
    if ChunkFails(lines, lineNumber, first, e) {
      assert FailsBehind(lines, lineNumber, first, e, 0);
    }
    if m: nat, c :| && 0 < m <= |lines| && ChunkBlock(lines[..m], c, first) && ChunkEnds(c, lines[m..])
                    && ChunksFail(lines[m..], lineNumber + m, false, e) {
      ChunkAtHere(lines, 0, m, c, first);
      assert LaterFails(lines, lineNumber, first, e, 0, m, c);
      assert FailsBehind(lines, lineNumber, first, e, 0);
    }
  }

  /** On these lines the parser reads chunks as the format has them. */
  ghost predicate ReadsChunks(lines: seq<string>, lineNumber: nat, first: bool) {
    && (forall chunks, n: nat ::
          ReadChunks(lines, lineNumber, first) == Ok((chunks, n)) <==> Chunks(lines, n, chunks, first))
    && (forall e :: ReadChunks(lines, lineNumber, first) == Err(e) <==> ChunksFail(lines, lineNumber, first, e))
  }

  lemma NoLinesNoChunks(lineNumber: nat, first: bool)
    ensures ReadsChunks([], lineNumber, first)
  {}

  lemma ReadBehindBlank(lines: seq<string>, lineNumber: nat, first: bool)
    requires lines != [] && Blank(lines[0])
    ensures ReadChunks(lines, lineNumber, first)
         == match ReadChunks(lines[1..], lineNumber + 1, first)
            case Err(e) => Err(e)
            case Ok((chunks, n)) => Ok((chunks, 1 + n))
  {
    hide Blank, Starred, Trim, ReadChunks;
    BlankIff(lines[0]);
    ReadSkipsBlank(lines, lineNumber, first);
    OneLineMore(ReadChunks(lines[1..], lineNumber + 1, first));
  }

  lemma ReadSkipsBlank(lines: seq<string>, lineNumber: nat, first: bool)
    requires lines != [] && Trim(lines[0]) == ""
    ensures ReadChunks(lines, lineNumber, first) == AfterChunks([], 1, ReadChunks(lines[1..], lineNumber + 1, first))
  {
    hide Trim, ReadChunk, AfterChunks;
  }

  lemma OneLineMore(r: Parsed<(seq<Chunk>, nat)>)
    ensures AfterChunks([], 1, r)
         == match r
            case Err(e) => Err(e)
            case Ok((chunks, n)) => Ok((chunks, 1 + n))
  {
    if r.Ok? {
      assert [] + r.value.0 == r.value.0;
    }
  }

  lemma ChunksBlankStep(lines: seq<string>, lineNumber: nat, first: bool)
    requires lines != [] && Blank(lines[0]) && ReadsChunks(lines[1..], lineNumber + 1, first)
    ensures ReadsChunks(lines, lineNumber, first)
  {
    hide Blank, Starred, ReadChunks, Chunks, ChunksFail;
    ReadBehindBlank(lines, lineNumber, first);
    forall chunks, n: nat
      ensures ReadChunks(lines, lineNumber, first) == Ok((chunks, n)) <==> Chunks(lines, n, chunks, first)
    {
      ChunksBehindBlank(lines, n, chunks, first);
      if n > 0 {
        assert ReadChunks(lines[1..], lineNumber + 1, first) == Ok((chunks, n - 1))
          <==> Chunks(lines[1..], n - 1, chunks, first);
      }
    }
    forall e ensures ReadChunks(lines, lineNumber, first) == Err(e) <==> ChunksFail(lines, lineNumber, first, e) {
      ChunksFailBehindBlank(lines, lineNumber, first, e);
    }
  }

  lemma NoneBeginsHere(lines: seq<string>)
    requires lines != [] && Starred(lines[0])
    ensures forall b: nat :: !ChunkBegins(lines, b)
  {
    hide Blank, Starred, ChunkBegins;
    BlankIff(lines[0]);
    forall b: nat ensures !ChunkBegins(lines, b) {
      BeginsHere(lines, b);
    }
  }

  lemma NoneFails(lines: seq<string>, lineNumber: nat, first: bool, e: ParseError)
    requires forall b: nat :: !ChunkBegins(lines, b)
    ensures !ChunksFail(lines, lineNumber, first, e)
  {
    hide ChunksFail, ChunkBegins, ChunkFails, LaterFails;
    SomeChunkFails(lines, lineNumber, first, e);
  }

  lemma NoChunksHere(lines: seq<string>, lineNumber: nat, first: bool)
    requires lines != [] && Starred(lines[0])
    ensures ReadsChunks(lines, lineNumber, first)
  {
    hide Blank, Starred, Trim, ReadChunks, Chunks, ChunksFail, ChunkBegins;
    ReadNone(lines, lineNumber, first);
    NoneBeginsHere(lines);
    forall chunks, n: nat
      ensures ReadChunks(lines, lineNumber, first) == Ok((chunks, n)) <==> Chunks(lines, n, chunks, first)
    {
      NoneBegins(lines, n, chunks, first);
    }
    forall e ensures !ChunksFail(lines, lineNumber, first, e) {
      NoneFails(lines, lineNumber, first, e);
    }
  }

  lemma ReadNone(lines: seq<string>, lineNumber: nat, first: bool)
    requires lines != [] && Starred(lines[0])
    ensures ReadChunks(lines, lineNumber, first) == Ok(([], 0))
  {
    BlankIff(lines[0]);
    hide Blank, Trim;
  }

  lemma NoneBegins(lines: seq<string>, n: nat, chunks: seq<Chunk>, first: bool)
    requires lines != [] && Starred(lines[0]) && forall b: nat :: !ChunkBegins(lines, b)
    ensures Chunks(lines, n, chunks, first) <==> n == 0 && chunks == []
  {
    BlankIff(lines[0]);
    if chunks != [] {
      hide Blank, Starred, Chunks, ChunkBegins;
      SomeChunks(lines, n, chunks, first);
    } else {
      hide Blank, Starred;
    }
  }

  lemma ReadFirstChunk(lines: seq<string>, lineNumber: nat, first: bool)
    requires lines != [] && !Blank(lines[0]) && !Starred(lines[0])
    ensures ReadChunks(lines, lineNumber, first)
         == match ReadChunk(lines, lineNumber, first)
            case Err(e) => Err(e)
            case Ok((c, m)) =>
              match ReadChunks(lines[m..], lineNumber + m, false)
              case Err(e) => Err(e)
              case Ok((chunks, n)) => Ok(([c] + chunks, m + n))
  {
    BlankIff(lines[0]);
    hide Blank, Trim, ReadChunk;
  }

  lemma ChunksStep(lines: seq<string>, lineNumber: nat, first: bool)
    requires lines != [] && !Blank(lines[0]) && !Starred(lines[0])
    requires ReadChunk(lines, lineNumber, first).Ok? ==>
               var m := ReadChunk(lines, lineNumber, first).value.1; ReadsChunks(lines[m..], lineNumber + m, false)
    ensures ReadsChunks(lines, lineNumber, first)
  {
    hide Blank, Starred, ReadChunk, ReadChunks, Chunks, ChunksFail, ChunkBlock, ChunkEnds, ChunkFails;
    ReadFirstChunk(lines, lineNumber, first);
    ReadChunkIff(lines, lineNumber, first);
    var one := ReadChunk(lines, lineNumber, first);
    forall chunks, n: nat
      ensures ReadChunks(lines, lineNumber, first) == Ok((chunks, n)) <==> Chunks(lines, n, chunks, first)
    {
      ChunksHere(lines, n, chunks, first);
      if one.Ok? {
        var (c, m) := one.value;
        if ReadChunks(lines, lineNumber, first) == Ok((chunks, n)) {
          assert chunks == [c] + chunks[1..];
          assert ReadChunks(lines[m..], lineNumber + m, false) == Ok((chunks[1..], n - m));
          assert ChunkFirst(lines, n, chunks, first, m);
        }
        if k: nat :| ChunkFirst(lines, n, chunks, first, k) {
          assert chunks == [chunks[0]] + chunks[1..];
          assert ReadChunk(lines, lineNumber, first) == Ok((chunks[0], k));
          assert ReadChunks(lines[k..], lineNumber + k, false) == Ok((chunks[1..], n - k));
        }
      }
    }
    forall e ensures ReadChunks(lines, lineNumber, first) == Err(e) <==> ChunksFail(lines, lineNumber, first, e) {
      ChunksFailHere(lines, lineNumber, first, e);
    }
  }

  /** The chunks of an update hunk, and their errors. */
  lemma {:induction false} ReadChunksIff(lines: seq<string>, lineNumber: nat, first: bool)
    ensures ReadsChunks(lines, lineNumber, first)
    decreases |lines|
  {
    hide ReadsChunks, Blank, ReadChunk;
    if lines == [] {
      NoLinesNoChunks(lineNumber, first);
    } else if Blank(lines[0]) {
      ReadChunksIff(lines[1..], lineNumber + 1, first);
      ChunksBlankStep(lines, lineNumber, first);
    } else if Starred(lines[0]) {
      NoChunksHere(lines, lineNumber, first);
    } else {
      var one := ReadChunk(lines, lineNumber, first);
      if one.Ok? {
        ReadChunksIff(lines[one.value.1..], lineNumber + one.value.1, false);
      }
      ChunksStep(lines, lineNumber, first);
    }
  }

  // ---------------------------------------------------------------- the parser meets it: hunks

  /** `slice` behind a marker gives exactly what stands behind it. */
  lemma BehindMarker(line: string, marker: string, path: string)
    ensures line == marker + path <==> marker <= line && line[|marker|..] == path
  {
    if marker <= line {
      assert line == marker + line[|marker|..];
    }
    assert (marker + path)[|marker|..] == path;
  }

  /** No line bears two of the markers. */
  lemma OneMarker(line: string)
    ensures !(ADD_FILE <= line && DELETE_FILE <= line) && !(ADD_FILE <= line && UPDATE_FILE <= line)
    ensures !(DELETE_FILE <= line && UPDATE_FILE <= line)
  {
    assert ADD_FILE[4] == 'A' && DELETE_FILE[4] == 'D' && UPDATE_FILE[4] == 'U';
  }

  lemma {:induction false} ReadAddedMeaning(lines: seq<string>)
    ensures var (contents, n) := ReadAdded(lines);
            && (forall k :: 0 <= k < n ==> "+" <= lines[k]) && (n < |lines| ==> !("+" <= lines[n]))
            && contents == AddedText(lines[..n])
  {
    if lines != [] && "+" <= lines[0] {
      ReadAddedMeaning(lines[1..]);
      var n := ReadAdded(lines[1..]).1;
      assert lines[..n + 1][1..] == lines[1..][..n];
    }
  }

  lemma AddFileIff(lines: seq<string>, lineNumber: nat, h: Hunk, n: nat)
    requires lines != [] && ADD_FILE <= Trim(lines[0])
    ensures ReadHunk(lines, lineNumber) == Ok((h, n)) <==> HunkBlock(lines, n, h)
  {
    hide Trim, ReadAdded;
    var header, rest := Trim(lines[0]), lines[1..];
    OneMarker(header);
    ReadAddedMeaning(rest);
    var added := ReadAdded(rest);
    if h.AddFile? {
      BehindMarker(header, ADD_FILE, h.path);
      if HunkBlock(lines, n, h) {
        assert forall k :: 0 < k <= |rest| ==> lines[k] == rest[k - 1];
        AddedCountIs(lines, n, 1 + added.1);
      }
      assert lines[1..1 + added.1] == rest[..added.1];
    } else {
      BehindMarker(header, DELETE_FILE, h.path);
      BehindMarker(header, UPDATE_FILE, h.path);
    }
  }

  lemma AddedCountIs(lines: seq<string>, n: nat, m: nat)
    requires 0 < n <= |lines| && (forall k :: 0 < k < n ==> "+" <= lines[k]) && (n < |lines| ==> !("+" <= lines[n]))
    requires 0 < m <= |lines| && (forall k :: 0 < k < m ==> "+" <= lines[k]) && (m < |lines| ==> !("+" <= lines[m]))
    ensures n == m
  {}

  lemma DeleteFileIff(lines: seq<string>, lineNumber: nat, h: Hunk, n: nat)
    requires lines != [] && DELETE_FILE <= Trim(lines[0])
    ensures ReadHunk(lines, lineNumber) == Ok((h, n)) <==> HunkBlock(lines, n, h)
  {
    hide Trim;
    var header := Trim(lines[0]);
    OneMarker(header);
    BehindMarker(header, ADD_FILE, h.path);
    BehindMarker(header, DELETE_FILE, h.path);
    BehindMarker(header, UPDATE_FILE, h.path);
  }

  lemma SameMove(lines: seq<string>, move: Option<string>)
    requires lines != []
    ensures ReadMove(lines[1..]).Some? <==> MoveFollows(lines)
    ensures ReadMove(lines[1..]) == move <==>
              if MoveFollows(lines) then move.Some? && Trim(lines[1]) == MOVE_TO + move.value else move == None
  {
    hide Trim;
    if |lines| > 1 {
      assert lines[1..][0] == lines[1];
      if move.Some? {
        BehindMarker(Trim(lines[1]), MOVE_TO, move.value);
      }
    }
  }

  lemma UpdateFileIff(lines: seq<string>, lineNumber: nat, h: Hunk, n: nat)
    requires lines != [] && UPDATE_FILE <= Trim(lines[0])
    ensures ReadHunk(lines, lineNumber) == Ok((h, n)) <==> HunkBlock(lines, n, h)
  {
    hide Trim, ReadMove, MoveFollows, ReadChunks, Chunks;
    var header, start := Trim(lines[0]), HeaderCount(lines);
    OneMarker(header);
    BehindMarker(header, ADD_FILE, h.path);
    BehindMarker(header, DELETE_FILE, h.path);
    BehindMarker(header, UPDATE_FILE, h.path);
    SameMove(lines, ReadMove(lines[1..]));
    HeaderInside(lines);
    assert lines[1..][start - 1..] == lines[start..];
    ReadChunksIff(lines[start..], lineNumber + start, true);
    if h.UpdateFile? {
      SameMove(lines, h.movePath);
      if n >= start {
        assert ReadChunks(lines[start..], lineNumber + start, true) == Ok((h.chunks, n - start))
          <==> Chunks(lines[start..], n - start, h.chunks, true);
      }
      if n >= start && Chunks(lines[start..], n - start, h.chunks, true) {
        ChunksInside(lines[start..], n - start, h.chunks, true);
      }
    }
  }

  lemma HeaderInside(lines: seq<string>)
    requires lines != []
    ensures 0 < HeaderCount(lines) <= |lines|
  {}

  lemma ChunksInside(lines: seq<string>, n: nat, chunks: seq<Chunk>, first: bool)
    requires Chunks(lines, n, chunks, first)
    ensures n <= |lines|
  {}

  /** What the parser reads as a hunk is one, and its errors are those of the format. */
  lemma ReadHunkIff(lines: seq<string>, lineNumber: nat)
    ensures forall h, n: nat :: ReadHunk(lines, lineNumber) == Ok((h, n)) <==> HunkBlock(lines, n, h)
    ensures forall e :: ReadHunk(lines, lineNumber) == Err(e) <==> HunkFails(lines, lineNumber, e)
  {
    hide Trim, ReadHunk, HunkBlock;
    forall h, n: nat ensures ReadHunk(lines, lineNumber) == Ok((h, n)) <==> HunkBlock(lines, n, h) {
      if lines == [] {
        NoHunkInNothing(lineNumber, h, n);
      } else if ADD_FILE <= Trim(lines[0]) {
        AddFileIff(lines, lineNumber, h, n);
      } else if DELETE_FILE <= Trim(lines[0]) {
        DeleteFileIff(lines, lineNumber, h, n);
      } else if UPDATE_FILE <= Trim(lines[0]) {
        UpdateFileIff(lines, lineNumber, h, n);
      } else {
        NoHunkWithoutMarker(lines, lineNumber, h, n);
      }
    }
    forall e ensures ReadHunk(lines, lineNumber) == Err(e) <==> HunkFails(lines, lineNumber, e) {
      HunkErrorIff(lines, lineNumber, e);
    }
  }

  lemma NoHunkInNothing(lineNumber: nat, h: Hunk, n: nat)
    ensures ReadHunk([], lineNumber) != Ok((h, n)) && !HunkBlock([], n, h)
  {}

  lemma NoHunkWithoutMarker(lines: seq<string>, lineNumber: nat, h: Hunk, n: nat)
    requires lines != []
    requires var header := Trim(lines[0]); !(ADD_FILE <= header) && !(DELETE_FILE <= header) && !(UPDATE_FILE <= header)
    ensures ReadHunk(lines, lineNumber) != Ok((h, n)) && !HunkBlock(lines, n, h)
  {
    hide Trim, Chunks;
    BehindMarker(Trim(lines[0]), ADD_FILE, h.path);
    BehindMarker(Trim(lines[0]), DELETE_FILE, h.path);
    BehindMarker(Trim(lines[0]), UPDATE_FILE, h.path);
  }

  lemma HunkErrorIff(lines: seq<string>, lineNumber: nat, e: ParseError)
    ensures ReadHunk(lines, lineNumber) == Err(e) <==> HunkFails(lines, lineNumber, e)
  {
    hide Trim, ReadUpdateFile, ReadAdded, UpdateFails;
    if lines != [] {
      OneMarker(Trim(lines[0]));
      if UPDATE_FILE <= Trim(lines[0]) {
        UpdateErrorIff(lines, Trim(lines[0]), lineNumber, e);
      }
    }
  }

  /** What the parser does behind an update header. */
  lemma ReadUpdateSteps(lines: seq<string>, header: string, lineNumber: nat)
    requires lines != [] && UPDATE_FILE <= header
    ensures var start := HeaderCount(lines);
            && start <= |lines|
            && match ReadChunks(lines[start..], lineNumber + start, true)
               case Err(e) => ReadUpdateFile(header, lines[1..], lineNumber) == Err(e)
               case Ok((chunks, _)) =>
                 if chunks == [] then
                   ReadUpdateFile(header, lines[1..], lineNumber)
                   == Err(EmptyUpdate(lineNumber, header[|UPDATE_FILE|..]))
                 else ReadUpdateFile(header, lines[1..], lineNumber).Ok?
  {
    hide Trim, ReadMove, MoveFollows, ReadChunks;
    SameMove(lines, ReadMove(lines[1..]));
    HeaderInside(lines);
    assert lines[1..][HeaderCount(lines) - 1..] == lines[HeaderCount(lines)..];
  }

  lemma UpdateErrorIff(lines: seq<string>, header: string, lineNumber: nat, e: ParseError)
    requires lines != [] && UPDATE_FILE <= header
    ensures ReadUpdateFile(header, lines[1..], lineNumber) == Err(e) <==> UpdateFails(lines, header, lineNumber, e)
  {
    hide HeaderCount, ReadUpdateFile, ReadChunks, Chunks, ChunksFail, NoChunks;
    HeaderInside(lines);
    ReadUpdateSteps(lines, header, lineNumber);
    var body, number := lines[HeaderCount(lines)..], lineNumber + HeaderCount(lines);
    ReadChunksIff(body, number, true);
    NoChunksRead(body, number);
    if e.EmptyUpdate? {
      BehindMarker(header, UPDATE_FILE, e.path);
    }
  }

  lemma NoChunksRead(body: seq<string>, lineNumber: nat)
    ensures var r := ReadChunks(body, lineNumber, true); NoChunks(body) <==> r.Ok? && r.value.0 == []
  {
    hide ReadChunks, Chunks, ChunksFail;
    ReadChunksIff(body, lineNumber, true);
    var r := ReadChunks(body, lineNumber, true);
    if r.Ok? && r.value.0 == [] {
      assert Chunks(body, r.value.1, [], true);
    }
  }

  // ---------------------------------------------------------------- the parser meets it: patches

  lemma {:induction false} ReadHunksIff(lines: seq<string>, lineNumber: nat, hunks: seq<Hunk>)
    ensures ReadHunks(lines, lineNumber) == Ok(hunks) <==> Hunks(lines, hunks)
    decreases |lines|
  {
    hide ReadHunk, HunkBlock, HunkFails, ReadHunks, Hunks;
    if lines == [] {
      NoHunks(lineNumber, hunks);
    } else {
      ReadHunkIff(lines, lineNumber);
      ReadFirstHunk(lines, lineNumber);
      match ReadHunk(lines, lineNumber)
      case Err(_) => NoFirstHunk(lines, hunks);
      case Ok((h, n)) =>
        FirstHunkIs(lines, hunks, h, n);
        if hunks != [] {
          ReadHunksIff(lines[n..], lineNumber + n, hunks[1..]);
          if ReadHunks(lines[n..], lineNumber + n).Ok? {
            ConsIs(h, ReadHunks(lines[n..], lineNumber + n).value, hunks);
          }
        }
    }
  }

  lemma ConsIs(h: Hunk, rest: seq<Hunk>, hunks: seq<Hunk>)
    requires hunks != []
    ensures [h] + rest == hunks <==> h == hunks[0] && rest == hunks[1..]
  {
    assert hunks == [hunks[0]] + hunks[1..];
    assert ([h] + rest)[1..] == rest;
  }

  lemma NoFirstHunk(lines: seq<string>, hunks: seq<Hunk>)
    requires lines != [] && forall n: nat, h :: !HunkBlock(lines, n, h)
    ensures !Hunks(lines, hunks)
  {
    hide HunkBlock;
  }

  lemma FirstHunkIs(lines: seq<string>, hunks: seq<Hunk>, h: Hunk, n: nat)
    requires lines != [] && n <= |lines| && forall k: nat, g :: HunkBlock(lines, k, g) <==> g == h && k == n
    ensures Hunks(lines, hunks) <==> hunks != [] && hunks[0] == h && Hunks(lines[n..], hunks[1..])
  {
    hide HunkBlock;
    if hunks != [] && Hunks(lines, hunks) {
      var k: nat :| HunkBlock(lines, k, hunks[0]) && k <= |lines| && Hunks(lines[k..], hunks[1..]);
    }
  }

  lemma NoHunks(lineNumber: nat, hunks: seq<Hunk>)
    ensures ReadHunks([], lineNumber) == Ok(hunks) <==> Hunks([], hunks)
  {
    hide HunkBlock;
    if hunks != [] {
      forall n: nat ensures !HunkBlock([], n, hunks[0]) {
        NoHunkInNothing(lineNumber, hunks[0], n);
      }
    }
  }

  lemma ReadFirstHunk(lines: seq<string>, lineNumber: nat)
    requires lines != []
    ensures ReadHunks(lines, lineNumber)
         == match ReadHunk(lines, lineNumber)
            case Err(e) => Err(e)
            case Ok((h, n)) =>
              match ReadHunks(lines[n..], lineNumber + n)
              case Err(e) => Err(e)
              case Ok(rest) => Ok([h] + rest)
  {
    hide ReadHunk;
  }

  lemma {:induction false} ReadHunksFailIff(lines: seq<string>, lineNumber: nat, e: ParseError)
    ensures ReadHunks(lines, lineNumber) == Err(e) <==> HunksFail(lines, lineNumber, e)
    decreases |lines|
  {
    hide ReadHunk, HunkBlock, HunkFails;
    if lines != [] {
      ReadHunkIff(lines, lineNumber);
      var one := ReadHunk(lines, lineNumber);
      if one.Ok? {
        ReadHunksFailIff(lines[one.value.1..], lineNumber + one.value.1, e);
        assert HunkBlock(lines, one.value.1, one.value.0);
      }
    }
  }

  lemma SameBounds(lines: seq<string>)
    ensures StrictError(lines).None? <==> Bounds(lines)
    ensures forall e :: StrictError(lines) == Some(e) <==> BoundsFail(lines, e)
  {
    hide Trim;
  }

  lemma HeredocIsNoBound(lines: seq<string>)
    requires Heredoc(lines)
    ensures !Bounds(lines)
  {
    assert lines[0] != "" && lines[0][0] == '<' && !IsSpace('<');
    hide IsSpace, Trim;
    TrimKeepsHead(lines[0]);
    assert "*** Begin Patch"[0] == '*';
  }

  lemma SameFrame(lines: seq<string>)
    ensures forall e :: Validated(lines) == Err(e) <==> FrameFails(lines, e)
    ensures Validated(lines).Ok? ==>
              var v := Validated(lines).value; |v| >= 2 && forall inner :: Framed(lines, inner) <==> inner == Inner(v)
    ensures Validated(lines).Err? ==> forall inner :: !Framed(lines, inner)
  {
    hide Trim, Bounds, BoundsFail, StrictError;
    SameBounds(lines);
    if Heredoc(lines) {
      HeredocIsNoBound(lines);
      SameBounds(Inner(lines));
      BoundsHold(Inner(lines));
    }
    BoundsHold(lines);
    assert IsHeredoc(lines) <==> Heredoc(lines) by { SameHeredoc(lines); }
  }

  lemma SameHeredoc(lines: seq<string>)
    ensures IsHeredoc(lines) <==> Heredoc(lines)
  {}

  lemma BoundsHold(lines: seq<string>)
    ensures Bounds(lines) ==> |lines| >= 2
  {}

  lemma FramedOnce(lines: seq<string>, v: seq<string>)
    requires |v| >= 2 && forall inner :: Framed(lines, inner) <==> inner == Inner(v)
    ensures forall hunks :: (exists inner :: Framed(lines, inner) && Hunks(inner, hunks)) <==> Hunks(Inner(v), hunks)
    ensures forall e :: (exists inner :: Framed(lines, inner) && HunksFail(inner, 2, e)) <==> HunksFail(Inner(v), 2, e)
  {
    hide Framed, Hunks, HunksFail;
  }

  lemma ParseSteps(text: string)
    ensures Parse(text)
         == if Blank(text) then Err(EmptyInput)
            else
              match Validated(TextLines(Trim(text)))
              case Err(e) => Err(e)
              case Ok(v) => if |v| < 2 then Ok([]) else ReadHunks(Inner(v), 2)
  {
    BlankIff(text);
    hide Blank, Starred, Trim, TextLines, Validated, ReadHunks;
  }

  /** A text parses as these hunks exactly when it is a patch of these hunks. */
  lemma ParseIff(text: string, hunks: seq<Hunk>)
    ensures Parse(text) == Ok(hunks) <==> Patch(text, hunks)
  {
    hide Trim, Blank, TextLines, Validated, Framed, FrameFails, Hunks, HunksFail, ReadHunks, Parse, Inner;
    ParseSteps(text);
    if !Blank(text) {
      var lines := TextLines(Trim(text));
      SameFrame(lines);
      if Validated(lines).Ok? {
        FramedOnce(lines, Validated(lines).value);
        ReadHunksIff(Inner(Validated(lines).value), 2, hunks);
      }
    }
  }

  /** A text fails with this error exactly when the format says so, line number included. */
  lemma ParseFailsIff(text: string, e: ParseError)
    ensures Parse(text) == Err(e) <==> PatchFails(text, e)
  {
    hide Trim, Blank, TextLines, Validated, Framed, FrameFails, Hunks, HunksFail, ReadHunks, Parse, Inner;
    ParseSteps(text);
    if !Blank(text) {
      var lines := TextLines(Trim(text));
      SameFrame(lines);
      if Validated(lines).Ok? {
        FramedOnce(lines, Validated(lines).value);
        ReadHunksFailIff(Inner(Validated(lines).value), 2, e);
      }
    }
  }
}
