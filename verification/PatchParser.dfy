/** The parser of the patch format, src/agents/apply-patch.ts. */
module PatchParser {
  import opened Text
  import opened PatchUpdate

  const BEGIN_PATCH := "*** Begin Patch"
  const END_PATCH := "*** End Patch"
  const ADD_FILE := "*** Add File: "
  const DELETE_FILE := "*** Delete File: "
  const UPDATE_FILE := "*** Update File: "
  const MOVE_TO := "*** Move to: "
  const END_OF_FILE := "*** End of File"
  const CONTEXT := "@@ "
  const EMPTY_CONTEXT := "@@"

  datatype Hunk =
    | AddFile(path: string, contents: string)
    | DeleteFile(path: string)
    | UpdateFile(path: string, movePath: Option<string>, chunks: seq<Chunk>)

  /** The errors, with the line number the message gives. */
  datatype ParseError =
    | EmptyInput
    | FirstLineWrong
    | LastLineWrong
    | EmptyHunk(line: nat)
    | EmptyUpdate(line: nat, path: string)
    | BadHeader(line: nat, text: string)
    | NoLines(line: nat)
    | ContextExpected(line: nat, text: string)
    | UnexpectedLine(line: nat, text: string)

  type Parsed<T> = Result<T, ParseError>

  // ---------------------------------------------------------------- what the parser computes

  predicate IsBodyLine(line: string) {
    line == "" || line[0] == ' ' || line[0] == '+' || line[0] == '-'
  }

  function OldOf(line: string): seq<string> {
    if line == "" then [""] else if line[0] == ' ' || line[0] == '-' then [line[1..]] else []
  }

  function NewOf(line: string): seq<string> {
    if line == "" then [""] else if line[0] == ' ' || line[0] == '+' then [line[1..]] else []
  }

  datatype Body = Body(oldLines: seq<string>, newLines: seq<string>, isEndOfFile: bool, count: nat)

  /** The body lines up to an end-of-file mark, which counts, or up to a line of another kind, which does not. */
  function ReadBody(lines: seq<string>): (b: Body)
    ensures b.count <= |lines|
  {
    if lines == [] then Body([], [], false, 0)
    else if lines[0] == END_OF_FILE then Body([], [], true, 1)
    else if !IsBodyLine(lines[0]) then Body([], [], false, 0)
    else
      var b := ReadBody(lines[1..]);
      Body(OldOf(lines[0]) + b.oldLines, NewOf(lines[0]) + b.newLines, b.isEndOfFile, 1 + b.count)
  }

  /** The change context of a chunk, and how many lines it takes. */
  function ReadContext(line: string): (Option<string>, nat) {
    if line == EMPTY_CONTEXT then (None, 1)
    else if CONTEXT <= line then (Some(line[|CONTEXT|..]), 1)
    else (None, 0)
  }

  function ReadChunk(lines: seq<string>, lineNumber: nat, allowMissingContext: bool): (r: Parsed<(Chunk, nat)>)
    ensures r.Ok? ==> 0 < r.value.1 <= |lines|
  {
    if lines == [] then Err(NoLines(lineNumber))
    else
      var start := ReadContext(lines[0]).1;
      if start == 0 && !allowMissingContext then Err(ContextExpected(lineNumber, lines[0]))
      else if start >= |lines| || lines[start] == END_OF_FILE then Err(NoLines(lineNumber + 1))
      else if !IsBodyLine(lines[start]) then Err(UnexpectedLine(lineNumber + 1, lines[start]))
      else
        var b := ReadBody(lines[start..]);
        Ok((Chunk(ReadContext(lines[0]).0, b.oldLines, b.newLines, b.isEndOfFile), start + b.count))
  }

  /** Chunks read before, put in front of what is read next. */
  function AfterChunks(chunks: seq<Chunk>, count: nat, r: Parsed<(seq<Chunk>, nat)>): (all: Parsed<(seq<Chunk>, nat)>)
    ensures all.Ok? <==> r.Ok?
    ensures r.Ok? ==> all.value.1 == count + r.value.1
  {
    match r
    case Err(e) => Err(e)
    case Ok((rest, n)) => Ok((chunks + rest, count + n))
  }

  /** The chunks up to the next hunk header, and how many lines they and the blank lines between them take. */
  function ReadChunks(lines: seq<string>, lineNumber: nat, first: bool): (r: Parsed<(seq<Chunk>, nat)>)
    ensures r.Ok? ==> r.value.1 <= |lines|
    decreases |lines|
  {
    if lines == [] then Ok(([], 0))
    else if Trim(lines[0]) == "" then AfterChunks([], 1, ReadChunks(lines[1..], lineNumber + 1, first))
    else if "***" <= lines[0] then Ok(([], 0))
    else
      match ReadChunk(lines, lineNumber, first)
      case Err(e) => Err(e)
      case Ok((chunk, m)) => AfterChunks([chunk], m, ReadChunks(lines[m..], lineNumber + m, false))
  }

  /** The leading added lines, each with a line feed, and their number. */
  function ReadAdded(lines: seq<string>): (r: (string, nat))
    ensures r.1 <= |lines|
  {
    if lines == [] || !("+" <= lines[0]) then ("", 0)
    else
      var r := ReadAdded(lines[1..]);
      (lines[0][1..] + "\n" + r.0, 1 + r.1)
  }

  function ReadMove(lines: seq<string>): (r: Option<string>)
    ensures r.Some? ==> lines != []
  {
    if lines != [] && MOVE_TO <= Trim(lines[0]) then Some(Trim(lines[0])[|MOVE_TO|..]) else None
  }

  /** An add hunk, given its header and the lines behind. */
  function ReadAddFile(header: string, lines: seq<string>): (r: (Hunk, nat))
    requires ADD_FILE <= header
    ensures 0 < r.1 <= 1 + |lines|
  {
    var (contents, n) := ReadAdded(lines);
    (AddFile(header[|ADD_FILE|..], contents), 1 + n)
  }

  /** An update hunk, given its header and the lines behind. */
  function ReadUpdateFile(header: string, lines: seq<string>, lineNumber: nat): (r: Parsed<(Hunk, nat)>)
    requires UPDATE_FILE <= header
    ensures r.Ok? ==> 0 < r.value.1 <= 1 + |lines|
  {
    var path := header[|UPDATE_FILE|..];
    var move := ReadMove(lines);
    var start := if move.Some? then 1 else 0;
    match ReadChunks(lines[start..], lineNumber + 1 + start, true)
    case Err(e) => Err(e)
    case Ok((chunks, n)) =>
      if chunks == [] then Err(EmptyUpdate(lineNumber, path)) else Ok((UpdateFile(path, move, chunks), 1 + start + n))
  }

  function ReadHunk(lines: seq<string>, lineNumber: nat): (r: Parsed<(Hunk, nat)>)
    ensures r.Ok? ==> 0 < r.value.1 <= |lines|
  {
    if lines == [] then Err(EmptyHunk(lineNumber))
    else
      var header := Trim(lines[0]);
      if ADD_FILE <= header then Ok(ReadAddFile(header, lines[1..]))
      else if DELETE_FILE <= header then Ok((DeleteFile(header[|DELETE_FILE|..]), 1))
      else if UPDATE_FILE <= header then ReadUpdateFile(header, lines[1..], lineNumber)
      else Err(BadHeader(lineNumber, lines[0]))
  }

  function ReadHunks(lines: seq<string>, lineNumber: nat): Parsed<seq<Hunk>>
    decreases |lines|
  {
    if lines == [] then Ok([])
    else
      match ReadHunk(lines, lineNumber)
      case Err(e) => Err(e)
      case Ok((hunk, n)) =>
        match ReadHunks(lines[n..], lineNumber + n)
        case Err(e) => Err(e)
        case Ok(hunks) => Ok([hunk] + hunks)
  }

  function StrictError(lines: seq<string>): Option<ParseError> {
    if lines == [] || Trim(lines[0]) != BEGIN_PATCH then Some(FirstLineWrong)
    else if Trim(lines[|lines| - 1]) != END_PATCH then Some(LastLineWrong)
    else None
  }

  predicate EndsWith(s: string, end: string) {
    |s| >= |end| && s[|s| - |end|..] == end
  }

  predicate IsHeredoc(lines: seq<string>) {
    && |lines| >= 4
    && (lines[0] == "<<EOF" || lines[0] == "<<'EOF'" || lines[0] == "<<\"EOF\"")
    && EndsWith(lines[|lines| - 1], "EOF")
  }

  function Validated(lines: seq<string>): Parsed<seq<string>> {
    if StrictError(lines).None? then Ok(lines)
    else if !IsHeredoc(lines) then Err(StrictError(lines).value)
    else
      var inner := lines[1..|lines| - 1];
      if StrictError(inner).None? then Ok(inner) else Err(StrictError(inner).value)
  }

  /** The lines of a text: `split(/\r?\n/)`. */
  function TextLines(text: string): (r: seq<string>)
    ensures r != []
  {
    SplitOn(Lf(text), '\n')
  }

  function Parse(text: string): Parsed<seq<Hunk>> {
    if Trim(text) == "" then Err(EmptyInput)
    else
      match Validated(TextLines(Trim(text)))
      case Err(e) => Err(e)
      case Ok(lines) => if |lines| < 2 then Ok([]) else ReadHunks(lines[1..|lines| - 1], 2)
  }

  // ---------------------------------------------------------------- the source's loops

  method CheckPatchBoundariesStrict(lines: seq<string>) returns (error: Option<ParseError>)
    ensures error == StrictError(lines)
  {
    hide Trim;
    var firstLine := if lines == [] then None else Some(Trim(lines[0]));
    var lastLine := if lines == [] then None else Some(Trim(lines[|lines| - 1]));
    if firstLine == Some(BEGIN_PATCH) && lastLine == Some(END_PATCH) {
      return None;
    }
    if firstLine != Some(BEGIN_PATCH) {
      return Some(FirstLineWrong);
    }
    return Some(LastLineWrong);
  }

  method CheckPatchBoundariesLenient(lines: seq<string>) returns (r: Parsed<seq<string>>)
    ensures r == Validated(lines)
  {
    hide StrictError, EndsWith;
    var strictError := CheckPatchBoundariesStrict(lines);
    if strictError.None? {
      return Ok(lines);
    }
    if |lines| < 4 {
      return Err(strictError.value);
    }
    var first, last := lines[0], lines[|lines| - 1];
    if (first == "<<EOF" || first == "<<'EOF'" || first == "<<\"EOF\"") && EndsWith(last, "EOF") {
      var inner := lines[1..|lines| - 1];
      var innerError := CheckPatchBoundariesStrict(inner);
      if innerError.None? {
        return Ok(inner);
      }
      return Err(innerError.value);
    }
    return Err(strictError.value);
  }

  method ParseUpdateFileChunk(
    lines: seq<string>, lineNumber: nat, allowMissingContext: bool) returns (r: Parsed<(Chunk, nat)>)
    ensures r == ReadChunk(lines, lineNumber, allowMissingContext)
  {
    if lines == [] {
      return Err(NoLines(lineNumber));
    }
    var changeContext: Option<string> := None;
    var startIndex := 0;
    if lines[0] == EMPTY_CONTEXT {
      startIndex := 1;
    } else if CONTEXT <= lines[0] {
      changeContext := Some(lines[0][|CONTEXT|..]);
      startIndex := 1;
    } else if !allowMissingContext {
      return Err(ContextExpected(lineNumber, lines[0]));
    }
    if startIndex >= |lines| {
      return Err(NoLines(lineNumber + 1));
    }
    var body := ParseChunkBody(lines[startIndex..], lineNumber);
    if body.Err? {
      return Err(body.error);
    }
    var b := body.value;
    return Ok((Chunk(changeContext, b.oldLines, b.newLines, b.isEndOfFile), b.count + startIndex));
  }

  /** The line loop of a chunk. */
  method ParseChunkBody(lines: seq<string>, lineNumber: nat) returns (r: Parsed<Body>)
    requires lines != []
    ensures r == if lines[0] == END_OF_FILE then Err(NoLines(lineNumber + 1))
                 else if !IsBodyLine(lines[0]) then Err(UnexpectedLine(lineNumber + 1, lines[0]))
                 else Ok(ReadBody(lines))
  {
    hide ReadBody;
    var oldLines, newLines := [], [];
    var parsedLines := 0;
    BodySoFar(ReadBody(lines));
    assert lines[0..] == lines;
    while parsedLines < |lines|
      invariant parsedLines <= |lines|
      invariant parsedLines > 0 ==> lines[0] != END_OF_FILE && IsBodyLine(lines[0])
      invariant AfterBody(oldLines, newLines, parsedLines, ReadBody(lines[parsedLines..])) == ReadBody(lines)
    {
      var line := lines[parsedLines];
      assert lines[parsedLines..][1..] == lines[parsedLines + 1..];
      BodyStep(lines[parsedLines..], oldLines, newLines, parsedLines);
      if line == END_OF_FILE {
        if parsedLines == 0 {
          return Err(NoLines(lineNumber + 1));
        }
        return Ok(Body(oldLines, newLines, true, parsedLines + 1));
      }
      if line == "" {
        oldLines, newLines := oldLines + [""], newLines + [""];
      } else if line[0] == ' ' {
        var content := line[1..];
        oldLines, newLines := oldLines + [content], newLines + [content];
      } else if line[0] == '+' {
        newLines := newLines + [line[1..]];
        assert oldLines + [] == oldLines;
      } else if line[0] == '-' {
        oldLines := oldLines + [line[1..]];
        assert newLines + [] == newLines;
      } else {
        if parsedLines == 0 {
          return Err(UnexpectedLine(lineNumber + 1, line));
        }
        return Ok(Body(oldLines, newLines, false, parsedLines));
      }
      parsedLines := parsedLines + 1;
    }
    NoBodyLeft(oldLines, newLines, parsedLines);
    return Ok(Body(oldLines, newLines, false, parsedLines));
  }

  lemma ReadBodyLine(line: string, rest: seq<string>)
    requires IsBodyLine(line) && line != END_OF_FILE
    ensures ReadBody([line] + rest)
         == Body(OldOf(line) + ReadBody(rest).oldLines, NewOf(line) + ReadBody(rest).newLines,
                 ReadBody(rest).isEndOfFile, 1 + ReadBody(rest).count)
  {
    hide OldOf, NewOf, IsBodyLine;
    assert ([line] + rest)[1..] == rest;
  }

  lemma BodySoFar(b: Body)
    ensures AfterBody([], [], 0, b) == b
  {
    assert [] + b.oldLines == b.oldLines && [] + b.newLines == b.newLines;
  }

  lemma NoBodyLeft(oldLines: seq<string>, newLines: seq<string>, count: nat)
    ensures AfterBody(oldLines, newLines, count, ReadBody([])) == Body(oldLines, newLines, false, count)
  {
    assert oldLines + [] == oldLines && newLines + [] == newLines;
  }

  function AfterBody(oldLines: seq<string>, newLines: seq<string>, count: nat, b: Body): Body {
    Body(oldLines + b.oldLines, newLines + b.newLines, b.isEndOfFile, count + b.count)
  }

  lemma BodyStep(lines: seq<string>, oldLines: seq<string>, newLines: seq<string>, count: nat)
    requires lines != []
    ensures AfterBody(oldLines, newLines, count, ReadBody(lines))
         == if lines[0] == END_OF_FILE then Body(oldLines, newLines, true, count + 1)
            else if !IsBodyLine(lines[0]) then Body(oldLines, newLines, false, count)
            else AfterBody(oldLines + OldOf(lines[0]), newLines + NewOf(lines[0]), count + 1, ReadBody(lines[1..]))
  {
    hide OldOf, NewOf;
    var b := ReadBody(lines[1..]);
    assert oldLines + (OldOf(lines[0]) + b.oldLines) == oldLines + OldOf(lines[0]) + b.oldLines;
    assert newLines + (NewOf(lines[0]) + b.newLines) == newLines + NewOf(lines[0]) + b.newLines;
    assert oldLines + [] == oldLines && newLines + [] == newLines;
  }

  method ParseOneHunk(lines: seq<string>, lineNumber: nat) returns (r: Parsed<(Hunk, nat)>)
    ensures r == ReadHunk(lines, lineNumber)
  {
    hide ReadChunk, ReadChunks, ReadUpdateFile, ReadAdded, Trim;
    if lines == [] {
      return Err(EmptyHunk(lineNumber));
    }
    var firstLine := Trim(lines[0]);
    if ADD_FILE <= firstLine {
      var targetPath := firstLine[|ADD_FILE|..];
      var contents, n := ParseAdded(lines[1..]);
      return Ok((AddFile(targetPath, contents), 1 + n));
    }
    if DELETE_FILE <= firstLine {
      return Ok((DeleteFile(firstLine[|DELETE_FILE|..]), 1));
    }
    if UPDATE_FILE <= firstLine {
      r := ParseUpdate(firstLine, lines[1..], lineNumber);
      return;
    }
    return Err(BadHeader(lineNumber, lines[0]));
  }

  /** The branch for an update hunk. */
  method ParseUpdate(firstLine: string, lines: seq<string>, lineNumber: nat) returns (r: Parsed<(Hunk, nat)>)
    requires UPDATE_FILE <= firstLine
    ensures r == ReadUpdateFile(firstLine, lines, lineNumber)
  {
    hide ReadChunk, ReadChunks, Trim;
    var targetPath := firstLine[|UPDATE_FILE|..];
    var remaining := lines;
    var consumed := 1;
    var movePath: Option<string> := None;
    if remaining != [] && MOVE_TO <= Trim(remaining[0]) {
      movePath := Some(Trim(remaining[0])[|MOVE_TO|..]);
      remaining := remaining[1..];
      consumed := consumed + 1;
    }
    assert movePath == ReadMove(lines) && remaining == lines[consumed - 1..];
    var all := ParseChunks(remaining, lineNumber + consumed);
    if all.Err? {
      return Err(all.error);
    }
    if all.value.0 == [] {
      return Err(EmptyUpdate(lineNumber, targetPath));
    }
    return Ok((UpdateFile(targetPath, movePath, all.value.0), consumed + all.value.1));
  }

  /** The line loop of an add hunk. */
  method ParseAdded(lines: seq<string>) returns (contents: string, n: nat)
    ensures (contents, n) == ReadAdded(lines)
  {
    contents, n := "", 0;
    assert lines[0..] == lines;
    assert "" + ReadAdded(lines).0 == ReadAdded(lines).0;
    while n < |lines| && "+" <= lines[n]
      invariant n <= |lines|
      invariant ReadAdded(lines) == (contents + ReadAdded(lines[n..]).0, n + ReadAdded(lines[n..]).1)
    {
      assert lines[n..][1..] == lines[n + 1..];
      var more := lines[n][1..] + "\n";
      assert contents + (more + ReadAdded(lines[n + 1..]).0) == contents + more + ReadAdded(lines[n + 1..]).0;
      contents := contents + more;
      n := n + 1;
    }
    assert contents + "" == contents;
  }

  /** The chunk loop of an update hunk. */
  method ParseChunks(lines: seq<string>, lineNumber: nat) returns (r: Parsed<(seq<Chunk>, nat)>)
    ensures r == ReadChunks(lines, lineNumber, true)
  {
    hide ReadChunk, ReadChunks, Trim;
    var remaining := lines;
    var consumed := 0;
    var chunks := [];
    ChunksSoFar(ReadChunks(lines, lineNumber, true));
    while remaining != []
      invariant AfterChunks(chunks, consumed, ReadChunks(remaining, lineNumber + consumed, chunks == []))
             == ReadChunks(lines, lineNumber, true)
      decreases |remaining|
    {
      ChunksStep(remaining, lineNumber + consumed, chunks, consumed);
      if Trim(remaining[0]) == "" {
        remaining := remaining[1..];
        consumed := consumed + 1;
        continue;
      }
      if "***" <= remaining[0] {
        break;
      }
      var chunk := ParseUpdateFileChunk(remaining, lineNumber + consumed, chunks == []);
      if chunk.Err? {
        return Err(chunk.error);
      }
      chunks := chunks + [chunk.value.0];
      remaining := remaining[chunk.value.1..];
      consumed := consumed + chunk.value.1;
    }
    if remaining == [] {
      NoChunksLeft(lineNumber + consumed, chunks, consumed);
    }
    return Ok((chunks, consumed));
  }

  lemma ChunksSoFar(r: Parsed<(seq<Chunk>, nat)>)
    ensures AfterChunks([], 0, r) == r
  {
    if r.Ok? {
      assert [] + r.value.0 == r.value.0;
    }
  }

  lemma NoChunksLeft(lineNumber: nat, chunks: seq<Chunk>, count: nat)
    ensures AfterChunks(chunks, count, ReadChunks([], lineNumber, chunks == [])) == Ok((chunks, count))
  {
    assert chunks + [] == chunks;
  }

  lemma ChunksStep(lines: seq<string>, lineNumber: nat, chunks: seq<Chunk>, count: nat)
    requires lines != []
    ensures AfterChunks(chunks, count, ReadChunks(lines, lineNumber, chunks == []))
         == if Trim(lines[0]) == ""
             then AfterChunks(chunks, count + 1, ReadChunks(lines[1..], lineNumber + 1, chunks == []))
            else if "***" <= lines[0] then Ok((chunks, count))
            else
              match ReadChunk(lines, lineNumber, chunks == [])
              case Err(e) => Err(e)
              case Ok((chunk, m)) =>
                AfterChunks(chunks + [chunk], count + m, ReadChunks(lines[m..], lineNumber + m, false))
  {
    hide ReadChunk, Trim, AfterChunks;
    NoChunksLeft(lineNumber, chunks, count);
    if Trim(lines[0]) == "" {
      AfterTwice(chunks, count, [], 1, ReadChunks(lines[1..], lineNumber + 1, chunks == []));
      assert chunks + [] == chunks;
    } else if ReadChunk(lines, lineNumber, chunks == []).Ok? {
      var step := ReadChunk(lines, lineNumber, chunks == []).value;
      AfterTwice(chunks, count, [step.0], step.1, ReadChunks(lines[step.1..], lineNumber + step.1, false));
    } else {
      AfterFailure(chunks, count, ReadChunk(lines, lineNumber, chunks == []).error);
    }
  }

  lemma AfterTwice(a: seq<Chunk>, m: nat, b: seq<Chunk>, n: nat, r: Parsed<(seq<Chunk>, nat)>)
    ensures AfterChunks(a, m, AfterChunks(b, n, r)) == AfterChunks(a + b, m + n, r)
  {
    if r.Ok? {
      assert a + (b + r.value.0) == a + b + r.value.0;
    }
  }

  lemma AfterFailure(chunks: seq<Chunk>, count: nat, e: ParseError)
    ensures AfterChunks(chunks, count, Err(e)) == Err(e)
  {}

  method ParsePatchText(input: string) returns (r: Parsed<seq<Hunk>>)
    ensures r == Parse(input)
  {
    hide ReadHunk, Trim, TextLines, Validated;
    var trimmed := Trim(input);
    if trimmed == "" {
      return Err(EmptyInput);
    }
    var lines := TextLines(trimmed);
    var validated := CheckPatchBoundariesLenient(lines);
    if validated.Err? {
      return Err(validated.error);
    }
    var all := validated.value;
    var remaining := if |all| < 2 then [] else all[1..|all| - 1];
    ghost var whole := ReadHunks(remaining, 2);
    var hunks := [];
    var lineNumber := 2;
    HunksSoFar(whole);
    while remaining != []
      invariant AfterHunks(hunks, ReadHunks(remaining, lineNumber)) == whole
      decreases |remaining|
    {
      HunksStep(remaining, lineNumber, hunks);
      var one := ParseOneHunk(remaining, lineNumber);
      if one.Err? {
        return Err(one.error);
      }
      hunks := hunks + [one.value.0];
      lineNumber := lineNumber + one.value.1;
      remaining := remaining[one.value.1..];
    }
    assert hunks + [] == hunks;
    return Ok(hunks);
  }

  function AfterHunks(hunks: seq<Hunk>, r: Parsed<seq<Hunk>>): Parsed<seq<Hunk>> {
    match r
    case Err(e) => Err(e)
    case Ok(rest) => Ok(hunks + rest)
  }

  lemma HunksSoFar(r: Parsed<seq<Hunk>>)
    ensures AfterHunks([], r) == r
  {
    if r.Ok? {
      assert [] + r.value == r.value;
    }
  }

  lemma HunksStep(lines: seq<string>, lineNumber: nat, hunks: seq<Hunk>)
    requires lines != []
    ensures AfterHunks(hunks, ReadHunks(lines, lineNumber))
         == match ReadHunk(lines, lineNumber)
            case Err(e) => Err(e)
            case Ok((hunk, n)) => AfterHunks(hunks + [hunk], ReadHunks(lines[n..], lineNumber + n))
  {
    hide ReadHunk;
    if ReadHunk(lines, lineNumber).Ok? {
      var step := ReadHunk(lines, lineNumber).value;
      var rest := ReadHunks(lines[step.1..], lineNumber + step.1);
      if rest.Ok? {
        assert hunks + ([step.0] + rest.value) == hunks + [step.0] + rest.value;
      }
    }
  }
}
