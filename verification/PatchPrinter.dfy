/** A printed form of the patch format, and the proof that parsing undoes printing. */
module PatchPrinter {
  import opened Text
  import opened PatchUpdate
  import opened PatchParser

  datatype BodyText = Same(text: string) | Added(text: string) | Removed(text: string) | BlankLine {
    function Line(): string {
      match this
      case Same(t) => " " + t
      case Added(t) => "+" + t
      case Removed(t) => "-" + t
      case BlankLine => ""
    }

    /** The line it stands for in the file before. */
    function Before(): seq<string> {
      match this
      case Same(t) => [t]
      case Added(_) => []
      case Removed(t) => [t]
      case BlankLine => [""]
    }

    /** The line it stands for in the file behind. */
    function Behind(): seq<string> {
      match this
      case Same(t) => [t]
      case Added(t) => [t]
      case Removed(_) => []
      case BlankLine => [""]
    }
  }

  /** A chunk begins without a context line (only the first one may), with a bare one, or with a named one. */
  datatype Header = Implicit | Bare | Marked(context: string) {
    function Lines(): seq<string> {
      match this
      case Implicit => []
      case Bare => [EMPTY_CONTEXT]
      case Marked(c) => [CONTEXT + c]
    }
  }

  datatype ChunkText = ChunkText(header: Header, body: seq<BodyText>, isEndOfFile: bool)

  datatype HunkText =
    | AddText(path: string, lines: seq<string>)
    | DeleteText(path: string)
    | UpdateText(path: string, movePath: Option<string>, chunks: seq<ChunkText>)

  // ---------------------------------------------------------------- printing

  function BodyLines(body: seq<BodyText>): (r: seq<string>)
    ensures |r| == |body|
  {
    if body == [] then [] else [body[0].Line()] + BodyLines(body[1..])
  }

  function EndLines(c: ChunkText): seq<string> {
    if c.isEndOfFile then [END_OF_FILE] else []
  }

  function ChunkLines(c: ChunkText): seq<string> {
    c.header.Lines() + BodyLines(c.body) + EndLines(c)
  }

  function ChunksLines(chunks: seq<ChunkText>): seq<string> {
    if chunks == [] then [] else ChunkLines(chunks[0]) + ChunksLines(chunks[1..])
  }

  function AddedLines(lines: seq<string>): seq<string> {
    if lines == [] then [] else ["+" + lines[0]] + AddedLines(lines[1..])
  }

  function MoveLines(move: Option<string>): seq<string> {
    if move.Some? then [MOVE_TO + move.value] else []
  }

  function HunkLines(h: HunkText): seq<string> {
    match h
    case AddText(path, lines) => [ADD_FILE + path] + AddedLines(lines)
    case DeleteText(path) => [DELETE_FILE + path]
    case UpdateText(path, move, chunks) => [UPDATE_FILE + path] + MoveLines(move) + ChunksLines(chunks)
  }

  function HunksLines(hunks: seq<HunkText>): seq<string> {
    if hunks == [] then [] else HunkLines(hunks[0]) + HunksLines(hunks[1..])
  }

  function PatchLines(hunks: seq<HunkText>): seq<string> {
    [BEGIN_PATCH] + HunksLines(hunks) + [END_PATCH]
  }

  // ---------------------------------------------------------------- meaning

  function OldLines(body: seq<BodyText>): seq<string> {
    if body == [] then [] else body[0].Before() + OldLines(body[1..])
  }

  function NewLines(body: seq<BodyText>): seq<string> {
    if body == [] then [] else body[0].Behind() + NewLines(body[1..])
  }

  function ChunkMeaning(c: ChunkText): Chunk {
    Chunk(if c.header.Marked? then Some(c.header.context) else None, OldLines(c.body), NewLines(c.body), c.isEndOfFile)
  }

  function ChunksMeaning(chunks: seq<ChunkText>): (r: seq<Chunk>)
    ensures |r| == |chunks|
  {
    if chunks == [] then [] else [ChunkMeaning(chunks[0])] + ChunksMeaning(chunks[1..])
  }

  function Contents(lines: seq<string>): string {
    if lines == [] then "" else lines[0] + "\n" + Contents(lines[1..])
  }

  function Meaning(h: HunkText): Hunk {
    match h
    case AddText(path, lines) => AddFile(path, Contents(lines))
    case DeleteText(path) => DeleteFile(path)
    case UpdateText(path, move, chunks) => UpdateFile(path, move, ChunksMeaning(chunks))
  }

  function Meanings(hunks: seq<HunkText>): seq<Hunk> {
    if hunks == [] then [] else [Meaning(hunks[0])] + Meanings(hunks[1..])
  }

  // ---------------------------------------------------------------- what can be printed

  /** Header lines are trimmed: a path has to be there and must not end in white space. */
  predicate ProperPath(path: string) {
    path != "" && !IsSpace(path[|path| - 1])
  }

  /** Without a context line the first body line must not be taken for a blank line to skip, nor for a move line. */
  predicate ProperChunk(c: ChunkText, first: bool, moved: bool) {
    && c.body != []
    && (c.header == Implicit ==>
          && first && Trim(c.body[0].Line()) != ""
          && (moved || !(MOVE_TO <= Trim(c.body[0].Line()))))
  }

  predicate ProperChunks(chunks: seq<ChunkText>, first: bool, moved: bool) {
    chunks != [] ==> ProperChunk(chunks[0], first, moved) && ProperChunks(chunks[1..], false, moved)
  }

  predicate ProperHunk(h: HunkText) {
    && ProperPath(h.path)
    && (h.UpdateText? ==> h.chunks != [] && ProperChunks(h.chunks, true, h.movePath.Some?)
                          && (h.movePath.Some? ==> ProperPath(h.movePath.value)))
  }

  // ---------------------------------------------------------------- reading back lines

  lemma BodyLineFacts(b: BodyText)
    ensures IsBodyLine(b.Line()) && b.Line() != END_OF_FILE
    ensures !("***" <= b.Line()) && !("@@" <= b.Line())
  {}

  /** The parser reads a body line as what it stands for. */
  lemma BodyLineMeaning(b: BodyText)
    ensures OldOf(b.Line()) == b.Before() && NewOf(b.Line()) == b.Behind()
  {
    assert !b.BlankLine? ==> b.Line()[1..] == b.text;
  }

  /** A line at which a chunk's body ends. */
  predicate StopsBody(rest: seq<string>) {
    rest == [] || (rest[0] != END_OF_FILE && !IsBodyLine(rest[0]))
  }

  lemma {:induction false} ReadBodyLines(body: seq<BodyText>, eof: bool, rest: seq<string>)
    requires eof || StopsBody(rest)
    ensures var end := if eof then [END_OF_FILE] else [];
            ReadBody(BodyLines(body) + end + rest) == Body(OldLines(body), NewLines(body), eof, |body| + |end|)
  {
    hide OldOf, NewOf, ReadBody, IsBodyLine, BodyText.Line, BodyText.Before, BodyText.Behind, StopsBody;
    var end := if eof then [END_OF_FILE] else [];
    if body == [] {
      ReadBodyEnd(eof, rest);
      assert BodyLines(body) + end + rest == end + rest;
    } else {
      var more := BodyLines(body[1..]) + end + rest;
      ReadBodyLines(body[1..], eof, rest);
      BodyLineFacts(body[0]);
      BodyLineMeaning(body[0]);
      ReadBodyLine(body[0].Line(), more);
      assert BodyLines(body) + end + rest == [body[0].Line()] + more;
    }
  }

  lemma ReadBodyEnd(eof: bool, rest: seq<string>)
    requires eof || StopsBody(rest)
    ensures var end := if eof then [END_OF_FILE] else [];
            ReadBody(end + rest) == Body([], [], eof, |end|)
  {
    if !eof {
      assert [] + rest == rest;
    }
  }

  lemma ReadHeader(h: Header, line: string)
    requires h == Implicit ==> !("@@" <= line)
    requires h != Implicit ==> [line] == h.Lines()
    ensures ReadContext(line) == (if h.Marked? then Some(h.context) else None, |h.Lines()|)
  {}

  /** Where the lines of a printed chunk stand. */
  lemma ChunkParts(c: ChunkText, rest: seq<string>)
    requires c.body != []
    ensures var lines, n := ChunkLines(c) + rest, |c.header.Lines()|;
            && |ChunkLines(c)| == n + |c.body| + |EndLines(c)|
            && lines[n..] == BodyLines(c.body) + EndLines(c) + rest
            && lines[n] == c.body[0].Line()
            && (if c.header == Implicit then n == 0 else [lines[0]] == c.header.Lines())
  {
    var lines, n := ChunkLines(c) + rest, |c.header.Lines()|;
    assert lines == c.header.Lines() + (BodyLines(c.body) + EndLines(c) + rest);
    assert BodyLines(c.body)[0] == c.body[0].Line();
  }

  lemma ReadChunkBody(c: ChunkText, rest: seq<string>)
    requires c.isEndOfFile || StopsBody(rest)
    ensures ReadBody(BodyLines(c.body) + EndLines(c) + rest)
         == Body(OldLines(c.body), NewLines(c.body), c.isEndOfFile, |c.body| + |EndLines(c)|)
  {
    hide ReadBody, StopsBody;
    ReadBodyLines(c.body, c.isEndOfFile, rest);
  }

  lemma ReadChunkLines(c: ChunkText, rest: seq<string>, lineNumber: nat, first: bool, moved: bool)
    requires ProperChunk(c, first, moved) && (c.isEndOfFile || StopsBody(rest))
    ensures ReadChunk(ChunkLines(c) + rest, lineNumber, first) == Ok((ChunkMeaning(c), |ChunkLines(c)|))
    ensures var line := (ChunkLines(c) + rest)[0]; Trim(line) != "" && !("***" <= line)
  {
    hide ReadBody, ReadContext, Trim, IsBodyLine, StopsBody;
    hide ChunkLines, BodyLines, EndLines, Header.Lines, BodyText.Line;
    ChunkParts(c, rest);
    BodyLineFacts(c.body[0]);
    ReadHeader(c.header, (ChunkLines(c) + rest)[0]);
    ReadChunkBody(c, rest);
    ContextNotBlank(c.header);
  }

  lemma ContextNotBlank(h: Header)
    ensures h != Implicit ==> Trim(h.Lines()[0]) != "" && !("***" <= h.Lines()[0])
  {
    hide Trim, IsSpace;
    if h != Implicit {
      assert h.Lines()[0][0] == '@' && !IsSpace('@') by { AtIsNoSpace(); }
      TrimKeepsHead(h.Lines()[0]);
    }
  }

  lemma AtIsNoSpace()
    ensures !IsSpace('@')
  {}

  /** A hunk header line, or nothing. */
  predicate AtHunk(rest: seq<string>) {
    rest == [] || ADD_FILE <= rest[0] || DELETE_FILE <= rest[0] || UPDATE_FILE <= rest[0]
  }

  lemma HeadLineFacts(line: string)
    requires ADD_FILE <= line || DELETE_FILE <= line || UPDATE_FILE <= line
    ensures |line| >= 5 && line[..3] == "***" && line[4] != 'E'
  {
    assert ADD_FILE[..3] == DELETE_FILE[..3] == UPDATE_FILE[..3] == "***";
    assert ADD_FILE[4] == 'A' && DELETE_FILE[4] == 'D' && UPDATE_FILE[4] == 'U';
  }

  lemma StarLine(line: string)
    requires |line| >= 5 && line[..3] == "***" && line[4] != 'E'
    ensures !IsBodyLine(line) && line != END_OF_FILE && "***" <= line && !("+" <= line) && Trim(line) != ""
  {
    hide IsSpace, Trim;
    assert line[0] == line[..3][0] == '*';
    assert END_OF_FILE[4] == 'E';
    Markers();
    TrimKeepsHead(line);
  }

  lemma HunkStops(rest: seq<string>)
    requires AtHunk(rest)
    ensures StopsBody(rest)
    ensures rest != [] ==> "***" <= rest[0] && !("+" <= rest[0]) && Trim(rest[0]) != ""
  {
    hide IsBodyLine, Trim;
    if rest != [] {
      HeadLineFacts(rest[0]);
      StarLine(rest[0]);
    }
  }

  lemma ChunkStopsBody(chunks: seq<ChunkText>, rest: seq<string>)
    requires ProperChunks(chunks, false, true) && AtHunk(rest)
    ensures StopsBody(ChunksLines(chunks) + rest)
  {
    HunkStops(rest);
    if chunks == [] {
      assert ChunksLines(chunks) + rest == rest;
    } else {
      var c := chunks[0];
      assert (ChunksLines(chunks) + rest)[0] == c.header.Lines()[0];
      assert c.header.Lines()[0][0] == '@' && END_OF_FILE[0] == '*';
    }
  }

  lemma {:induction false} LaterChunks(chunks: seq<ChunkText>, moved: bool)
    requires ProperChunks(chunks, false, moved)
    ensures ProperChunks(chunks, false, true)
  {
    hide Trim;
    if chunks != [] {
      LaterChunks(chunks[1..], moved);
    }
  }

  lemma ReadOneChunk(lines: seq<string>, lineNumber: nat, first: bool, c: Chunk, m: nat)
    requires lines != [] && Trim(lines[0]) != "" && !("***" <= lines[0]) && m <= |lines|
    requires ReadChunk(lines, lineNumber, first) == Ok((c, m))
    ensures ReadChunks(lines, lineNumber, first) == AfterChunks([c], m, ReadChunks(lines[m..], lineNumber + m, false))
  {
    hide ReadChunk, Trim, AfterChunks;
  }

  lemma ReadNoChunk(rest: seq<string>, lineNumber: nat, first: bool)
    requires AtHunk(rest)
    ensures ReadChunks(rest, lineNumber, first) == Ok(([], 0))
  {
    hide Trim;
    HunkStops(rest);
  }

  lemma {:induction false} ReadChunksLines(
    chunks: seq<ChunkText>, rest: seq<string>, lineNumber: nat, first: bool, moved: bool)
    requires ProperChunks(chunks, first, moved) && AtHunk(rest)
    ensures ReadChunks(ChunksLines(chunks) + rest, lineNumber, first)
        == Ok((ChunksMeaning(chunks), |ChunksLines(chunks)|))
    decreases |chunks|
  {
    hide ReadChunks, ReadChunk, Trim, ChunkLines, ChunkMeaning, StopsBody, AtHunk, ProperChunk;
    if chunks == [] {
      assert ChunksLines(chunks) + rest == rest;
      ReadNoChunk(rest, lineNumber, first);
    } else {
      var c := chunks[0];
      var more := ChunksLines(chunks[1..]) + rest;
      LaterChunks(chunks[1..], moved);
      ChunkStopsBody(chunks[1..], rest);
      ReadChunkLines(c, more, lineNumber, first, moved);
      ReadChunksLines(chunks[1..], rest, lineNumber + |ChunkLines(c)|, false, moved);
      ReadFirstOf(ChunkLines(c), more, lineNumber, first, ChunkMeaning(c), ChunksMeaning(chunks[1..]));
      assert ChunksLines(chunks) + rest == ChunkLines(c) + more;
    }
  }

  /** A chunk's lines, then those of others. */
  lemma ReadFirstOf(
    own: seq<string>, more: seq<string>, lineNumber: nat, first: bool, c: Chunk, others: seq<Chunk>)
    requires own != [] && Trim(own[0]) != "" && !("***" <= own[0])
    requires ReadChunk(own + more, lineNumber, first) == Ok((c, |own|))
    requires ReadChunks(more, lineNumber + |own|, false).Ok?
    requires ReadChunks(more, lineNumber + |own|, false).value.0 == others
    ensures ReadChunks(own + more, lineNumber, first)
         == Ok(([c] + others, |own| + ReadChunks(more, lineNumber + |own|, false).value.1))
  {
    hide ReadChunks, ReadChunk, Trim;
    assert (own + more)[|own|..] == more;
    ReadOneChunk(own + more, lineNumber, first, c, |own|);
  }

  // ---------------------------------------------------------------- reading back hunks

  lemma {:induction false} ReadAddedLines(lines: seq<string>, rest: seq<string>)
    requires rest == [] || !("+" <= rest[0])
    ensures ReadAdded(AddedLines(lines) + rest) == (Contents(lines), |lines|)
  {
    var all := AddedLines(lines) + rest;
    if lines == [] {
      assert all == rest;
    } else {
      ReadAddedLines(lines[1..], rest);
      assert all[0] == "+" + lines[0] && all[1..] == AddedLines(lines[1..]) + rest;
      assert all[0][1..] == lines[0];
    }
  }

  lemma {:induction false} AddedCount(lines: seq<string>)
    ensures |AddedLines(lines)| == |lines|
  {
    if lines != [] {
      AddedCount(lines[1..]);
    }
  }

  /** A header line survives trimming. */
  lemma HeaderTrimmed(marker: string, path: string)
    requires marker != "" && !IsSpace(marker[0]) && ProperPath(path)
    ensures Trim(marker + path) == marker + path
    ensures (marker + path)[|marker|..] == path && marker <= marker + path
  {
    hide IsSpace, Trim;
    TrimFixed(marker + path);
  }

  lemma Markers()
    ensures !IsSpace(ADD_FILE[0]) && !IsSpace(DELETE_FILE[0]) && !IsSpace(UPDATE_FILE[0]) && !IsSpace(MOVE_TO[0])
        && !IsSpace('*')
  {}

  lemma MarkersDiffer(path: string)
    ensures !(ADD_FILE <= DELETE_FILE + path) && !(ADD_FILE <= UPDATE_FILE + path)
        && !(DELETE_FILE <= UPDATE_FILE + path)
  {
    assert ADD_FILE[4] == 'A' && DELETE_FILE[4] == 'D' && UPDATE_FILE[4] == 'U';
    assert (DELETE_FILE + path)[4] == 'D' && (UPDATE_FILE + path)[4] == 'U';
  }

  /** What the update loop finds behind the header: the move line if it was printed, otherwise none. */
  lemma ReadMoveLines(h: HunkText, rest: seq<string>)
    requires h.UpdateText? && ProperHunk(h)
    ensures ReadMove(MoveLines(h.movePath) + ChunksLines(h.chunks) + rest) == h.movePath
  {
    var lines := MoveLines(h.movePath) + ChunksLines(h.chunks) + rest;
    if h.movePath.Some? {
      Markers();
      HeaderTrimmed(MOVE_TO, h.movePath.value);
      assert lines[0] == MOVE_TO + h.movePath.value;
    } else {
      var c := h.chunks[0];
      assert lines[0] == (c.header.Lines() + BodyLines(c.body))[0];
      if c.header != Implicit {
        ContextTrimmed(c.header);
      }
    }
  }

  lemma ContextTrimmed(h: Header)
    requires h != Implicit
    ensures !(MOVE_TO <= Trim(h.Lines()[0]))
  {
    hide IsSpace, Trim;
    var line := h.Lines()[0];
    assert line[0] == '@' && MOVE_TO[0] == '*';
    AtIsNoSpace();
    TrimKeepsHead(line);
  }

  lemma ReadAddHeader(lines: seq<string>, lineNumber: nat, header: string, path: string)
    requires lines != [] && Trim(lines[0]) == header && ADD_FILE <= header && header[|ADD_FILE|..] == path
    ensures var (contents, n) := ReadAdded(lines[1..]);
            ReadHunk(lines, lineNumber) == Ok((AddFile(path, contents), 1 + n))
  {
    hide Trim, ReadAdded;
  }

  lemma ReadUpdateHeader(lines: seq<string>, lineNumber: nat, header: string, path: string)
    requires lines != [] && Trim(lines[0]) == header && UPDATE_FILE <= header && header[|UPDATE_FILE|..] == path
    requires !(ADD_FILE <= header) && !(DELETE_FILE <= header)
    ensures var move := ReadMove(lines[1..]);
            var start := if move.Some? then 2 else 1;
            var all := ReadChunks(lines[start..], lineNumber + start, true);
            all.Ok? && all.value.0 != [] ==>
              ReadHunk(lines, lineNumber) == Ok((UpdateFile(path, move, all.value.0), start + all.value.1))
  {
    hide Trim, ReadChunks, ReadMove;
  }

  lemma HunkIsNotAdded(rest: seq<string>)
    requires AtHunk(rest)
    ensures rest == [] || !("+" <= rest[0])
  {
    HunkStops(rest);
  }

  lemma ReadAddText(lines: seq<string>, path: string, added: seq<string>, rest: seq<string>, lineNumber: nat)
    requires ProperPath(path) && AtHunk(rest)
    requires lines != [] && lines[0] == ADD_FILE + path && lines[1..] == AddedLines(added) + rest
    ensures ReadHunk(lines, lineNumber) == Ok((AddFile(path, Contents(added)), 1 + |added|))
  {
    hide Trim, ReadAdded, ReadHunk, Contents, AddedLines, ProperPath, AtHunk;
    assert Trim(lines[0]) == lines[0] && ADD_FILE <= lines[0] && lines[0][|ADD_FILE|..] == path by {
      Markers();
      HeaderTrimmed(ADD_FILE, path);
    }
    assert ReadAdded(lines[1..]) == (Contents(added), |added|) by {
      HunkIsNotAdded(rest);
      ReadAddedLines(added, rest);
    }
    ReadAddHeader(lines, lineNumber, lines[0], path);
  }

  lemma ReadUpdateText(lines: seq<string>, h: HunkText, rest: seq<string>, lineNumber: nat)
    requires h.UpdateText? && ProperHunk(h) && AtHunk(rest)
    requires lines != [] && lines[0] == UPDATE_FILE + h.path
    requires lines[1..] == MoveLines(h.movePath) + ChunksLines(h.chunks) + rest
    ensures ReadHunk(lines, lineNumber)
         == Ok((UpdateFile(h.path, h.movePath, ChunksMeaning(h.chunks)),
             1 + |MoveLines(h.movePath)| + |ChunksLines(h.chunks)|))
  {
    hide Trim, ReadHunk, ReadChunks, ReadMove, ChunksLines, ChunksMeaning, ProperChunks, AtHunk;
    var start := if h.movePath.Some? then 2 else 1;
    Markers();
    MarkersDiffer(h.path);
    HeaderTrimmed(UPDATE_FILE, h.path);
    assert lines[start..] == lines[1..][|MoveLines(h.movePath)|..] == ChunksLines(h.chunks) + rest;
    ReadMoveLines(h, rest);
    ReadChunksLines(h.chunks, rest, lineNumber + start, true, h.movePath.Some?);
    ReadUpdateHeader(lines, lineNumber, lines[0], h.path);
  }

  lemma ReadDeleteText(lines: seq<string>, path: string, lineNumber: nat)
    requires ProperPath(path) && lines != [] && lines[0] == DELETE_FILE + path
    ensures ReadHunk(lines, lineNumber) == Ok((DeleteFile(path), 1))
  {
    hide Trim, ReadAdded, ReadChunks, ReadMove;
    Markers();
    MarkersDiffer(path);
    HeaderTrimmed(DELETE_FILE, path);
  }

  lemma ReadHunkLines(h: HunkText, rest: seq<string>, lineNumber: nat)
    requires ProperHunk(h) && AtHunk(rest)
    ensures ReadHunk(HunkLines(h) + rest, lineNumber) == Ok((Meaning(h), |HunkLines(h)|))
  {
    hide ReadHunk, AddedLines, ChunksLines, ChunksMeaning, Contents, ProperPath, ProperChunks, AtHunk;
    var lines := HunkLines(h) + rest;
    HunkTail(h, rest);
    match h
    case AddText(path, added) =>
      AddedCount(added);
      ReadAddText(lines, path, added, rest, lineNumber);
    case DeleteText(path) =>
      ReadDeleteText(lines, path, lineNumber);
    case UpdateText(_, _, _) =>
      ReadUpdateText(lines, h, rest, lineNumber);
  }

  lemma BehindHead(x: string, a: seq<string>, b: seq<string>)
    ensures ([x] + a + b)[0] == x && ([x] + a + b)[1..] == a + b
  {}

  lemma HunkTail(h: HunkText, rest: seq<string>)
    ensures var lines := HunkLines(h) + rest;
            && lines[0] == HunkLines(h)[0]
            && (h.AddText? ==> lines[1..] == AddedLines(h.lines) + rest)
            && (h.UpdateText? ==> lines[1..] == MoveLines(h.movePath) + ChunksLines(h.chunks) + rest)
  {
    hide AddedLines, ChunksLines, MoveLines;
    match h
    case AddText(path, added) => BehindHead(ADD_FILE + path, AddedLines(added), rest);
    case DeleteText(path) =>
    case UpdateText(path, move, chunks) =>
      var tail := MoveLines(move) + ChunksLines(chunks);
      assert [UPDATE_FILE + path] + MoveLines(move) + ChunksLines(chunks) == [UPDATE_FILE + path] + tail;
      BehindHead(UPDATE_FILE + path, tail, rest);
  }

  lemma {:induction false} ReadHunksLines(hunks: seq<HunkText>, lineNumber: nat)
    requires forall h :: h in hunks ==> ProperHunk(h)
    ensures ReadHunks(HunksLines(hunks), lineNumber) == Ok(Meanings(hunks))
    decreases |hunks|
  {
    hide ReadHunk, Meaning, ProperHunk, AtHunk, HunkLines;
    if hunks != [] {
      var h, rest := hunks[0], HunksLines(hunks[1..]);
      HunksAtHunk(hunks[1..]);
      HunkHead(h);
      ReadHunkLines(h, rest, lineNumber);
      assert (HunkLines(h) + rest)[|HunkLines(h)|..] == rest;
      ReadHunksLines(hunks[1..], lineNumber + |HunkLines(h)|);
    }
  }

  lemma HunkHead(h: HunkText)
    ensures HunkLines(h) != [] && AtHunk(HunkLines(h))
  {}

  lemma HunksAtHunk(hunks: seq<HunkText>)
    ensures AtHunk(HunksLines(hunks))
  {
    hide HunkLines;
    if hunks != [] {
      HunkHead(hunks[0]);
      assert HunksLines(hunks)[0] == HunkLines(hunks[0])[0];
    }
  }

  // ---------------------------------------------------------------- whole texts

  /** Lines that survive being joined with the line end and split again. */
  predicate CleanLine(line: string, eol: string) {
    '\n' !in line && (eol == "\n" ==> line == "" || line[|line| - 1] != '\r')
  }

  predicate CleanLines(lines: seq<string>, eol: string) {
    forall l :: l in lines ==> CleanLine(l, eol)
  }

  lemma LfOfChar(c: char, s: string)
    requires !(c == '\r' && s != "" && s[0] == '\n')
    ensures Lf([c] + s) == [c] + Lf(s)
  {
    assert ([c] + s)[1..] == s;
  }

  lemma LfOfEnd(eol: string, z: string)
    requires IsLineEnd(eol)
    ensures Lf(eol + z) == "\n" + Lf(z)
  {
    assert (eol + z)[|eol|..] == z;
  }

  lemma {:induction false} LfOfLine(line: string, eol: string, z: string)
    requires IsLineEnd(eol) && CleanLine(line, eol)
    ensures Lf(line + eol + z) == line + "\n" + Lf(z)
  {
    hide Lf;
    if line == "" {
      assert "" + eol + z == eol + z;
      LfOfEnd(eol, z);
    } else {
      var c, rest := line[0], line[1..];
      assert rest != "" ==> rest[|rest| - 1] == line[|line| - 1];
      assert line == [c] + rest && '\n' !in rest;
      LfOfLine(rest, eol, z);
      var more := rest + eol + z;
      assert more[0] == if rest != "" then rest[0] else eol[0];
      LfOfChar(c, more);
      assert line + eol + z == [c] + more;
      assert [c] + (rest + "\n" + Lf(z)) == line + "\n" + Lf(z);
    }
  }

  lemma {:induction false} LfOfLastLine(line: string)
    requires '\n' !in line
    ensures Lf(line) == line
  {
    if |line| >= 2 {
      LfOfLastLine(line[1..]);
    }
  }

  lemma {:induction false} LfOfLines(lines: seq<string>, eol: string)
    requires IsLineEnd(eol) && CleanLines(lines, eol)
    ensures Lf(Join(lines, eol)) == Join(lines, "\n")
  {
    hide Lf, CleanLine;
    if lines == [] {
      LfOfLastLine("");
    } else {
      assert CleanLine(lines[0], eol);
      if |lines| == 1 {
        CleanHasNoLf(lines[0], eol);
        LfOfLastLine(lines[0]);
      } else {
        LfOfLines(lines[1..], eol);
        LfOfLine(lines[0], eol, Join(lines[1..], eol));
      }
    }
  }

  lemma CleanHasNoLf(line: string, eol: string)
    requires CleanLine(line, eol)
    ensures '\n' !in line
  {}

  lemma LinesOfText(lines: seq<string>, eol: string)
    requires lines != [] && IsLineEnd(eol) && CleanLines(lines, eol)
    ensures TextLines(Join(lines, eol)) == lines
  {
    hide Lf, CleanLine;
    LfOfLines(lines, eol);
    forall k | 0 <= k < |lines| ensures '\n' !in lines[k] {
      CleanHasNoLf(lines[k], eol);
    }
    SplitOfJoin(lines, '\n');
  }

  lemma {:induction false} JoinEnds(lines: seq<string>, eol: string)
    requires |lines| > 0 && lines[0] != "" && lines[|lines| - 1] != ""
    ensures var text := Join(lines, eol);
            text != "" && text[0] == lines[0][0] && text[|text| - 1] == lines[|lines| - 1][|lines[|lines| - 1]| - 1]
  {
    if |lines| > 1 {
      JoinOfAppend(lines[..|lines| - 1], [lines[|lines| - 1]], eol);
      assert lines == lines[..|lines| - 1] + [lines[|lines| - 1]];
      assert Join(lines, eol) == lines[0] + eol + Join(lines[1..], eol);
    }
  }

  lemma StrictlyFramed(inner: seq<string>)
    ensures StrictError([BEGIN_PATCH] + inner + [END_PATCH]) == None
    ensures !IsSpace(BEGIN_PATCH[0]) && !IsSpace(END_PATCH[|END_PATCH| - 1])
  {
    hide Trim;
    TrimFixed(BEGIN_PATCH);
    TrimFixed(END_PATCH);
  }

  lemma PatchFrame(hunks: seq<HunkText>)
    ensures var lines := PatchLines(hunks);
            && |lines| >= 2 && lines[0] == BEGIN_PATCH && lines[|lines| - 1] == END_PATCH
            && lines[1..|lines| - 1] == HunksLines(hunks)
            && Validated(lines) == Ok(lines)
  {
    StrictlyFramed(HunksLines(hunks));
  }

  /** Parsing a printed patch gives back what was printed: every kind of hunk, moves, contexts, end-of-file marks,
      context lines in any mix with added and removed ones, blank lines, with either line end. */
  lemma ParseOfPrint(hunks: seq<HunkText>, eol: string)
    requires IsLineEnd(eol) && CleanLines(PatchLines(hunks), eol)
    requires forall h :: h in hunks ==> ProperHunk(h)
    ensures Parse(Join(PatchLines(hunks), eol)) == Ok(Meanings(hunks))
  {
    hide TextLines, Trim, ProperHunk, HunksLines, CleanLines, ReadHunks, Validated, Meanings, PatchLines;
    var lines := PatchLines(hunks);
    PatchFrame(hunks);
    StrictlyFramed([]);
    TrimmedText(lines, eol);
    LinesOfText(lines, eol);
    ReadHunksLines(hunks, 2);
  }

  lemma TrimmedText(lines: seq<string>, eol: string)
    requires |lines| > 0 && lines[0] != "" && lines[|lines| - 1] != ""
    requires !IsSpace(lines[0][0]) && !IsSpace(lines[|lines| - 1][|lines[|lines| - 1]| - 1])
    ensures Trim(Join(lines, eol)) == Join(lines, eol) != ""
  {
    hide IsSpace, Trim;
    JoinEnds(lines, eol);
    TrimFixed(Join(lines, eol));
  }

  /** A heredoc around the patch changes nothing. */
  lemma ParseOfHeredoc(hunks: seq<HunkText>, open: string, close: string, eol: string)
    requires IsLineEnd(eol) && CleanLines(PatchLines(hunks), eol)
    requires forall h :: h in hunks ==> ProperHunk(h)
    requires open == "<<EOF" || open == "<<'EOF'" || open == "<<\"EOF\""
    requires EndsWith(close, "EOF") && CleanLine(close, eol)
    ensures Parse(Join([open] + PatchLines(hunks) + [close], eol)) == Ok(Meanings(hunks))
  {
    hide TextLines, Trim, ProperHunk, HunksLines, ReadHunks, Meanings, PatchLines, StrictError;
    var lines := PatchLines(hunks);
    var all := [open] + lines + [close];
    PatchFrame(hunks);
    HeredocLines(open, close, eol);
    assert lines == lines[..1] + lines[1..];
    assert StrictError(lines) == None;
    assert StrictError(all) == Some(FirstLineWrong) by { NotBegin(all, open); }
    assert all[1..|all| - 1] == lines;
    assert CleanLines(all, eol);
    TrimmedText(all, eol);
    LinesOfText(all, eol);
    ReadHunksLines(hunks, 2);
  }

  lemma HeredocLines(open: string, close: string, eol: string)
    requires open == "<<EOF" || open == "<<'EOF'" || open == "<<\"EOF\""
    requires EndsWith(close, "EOF")
    ensures CleanLine(open, eol) && open != "" && !IsSpace(open[0]) && open[0] == '<'
    ensures close != "" && !IsSpace(close[|close| - 1])
  {
    assert close[|close| - 3..][2] == 'F';
  }

  lemma NotBegin(all: seq<string>, open: string)
    requires all != [] && all[0] == open && open != "" && open[0] == '<'
    ensures StrictError(all) == Some(FirstLineWrong)
  {
    hide Trim;
    TrimKeepsHead(open);
    assert BEGIN_PATCH[0] == '*';
  }

  // ---------------------------------------------------------------- the printed form of a hunk

  /** A hunk that the format can express. */
  predicate Printable(h: Hunk) {
    && ProperPath(h.path)
    && (h.AddFile? ==> h.contents == "" || h.contents[|h.contents| - 1] == '\n')
    && (h.UpdateFile? ==>
          && h.chunks != []
          && (forall k :: 0 <= k < |h.chunks| ==> h.chunks[k].oldLines != [] || h.chunks[k].newLines != [])
          && (h.movePath.Some? ==> ProperPath(h.movePath.value)))
  }

  function RemovedAll(lines: seq<string>): seq<BodyText> {
    if lines == [] then [] else [Removed(lines[0])] + RemovedAll(lines[1..])
  }

  function AddedAll(lines: seq<string>): seq<BodyText> {
    if lines == [] then [] else [Added(lines[0])] + AddedAll(lines[1..])
  }

  /** A context line always, then the old lines, then the new ones. */
  function PrintChunk(c: Chunk): ChunkText {
    ChunkText(if c.changeContext.Some? then Marked(c.changeContext.value) else Bare,
              RemovedAll(c.oldLines) + AddedAll(c.newLines), c.isEndOfFile)
  }

  function PrintChunks(chunks: seq<Chunk>): seq<ChunkText> {
    if chunks == [] then [] else [PrintChunk(chunks[0])] + PrintChunks(chunks[1..])
  }

  function Print(h: Hunk): HunkText {
    match h
    case AddFile(path, contents) => AddText(path, DropBlankEnd(SplitOn(contents, '\n')))
    case DeleteFile(path) => DeleteText(path)
    case UpdateFile(path, move, chunks) => UpdateText(path, move, PrintChunks(chunks))
  }

  function PrintAll(hunks: seq<Hunk>): seq<HunkText> {
    if hunks == [] then [] else [Print(hunks[0])] + PrintAll(hunks[1..])
  }

  lemma BodyCons(b: BodyText, rest: seq<BodyText>)
    ensures OldLines([b] + rest) == b.Before() + OldLines(rest)
    ensures NewLines([b] + rest) == b.Behind() + NewLines(rest)
  {
    assert ([b] + rest)[1..] == rest;
  }

  lemma {:induction false} BodyOfAdded(come: seq<string>)
    ensures OldLines(AddedAll(come)) == [] && NewLines(AddedAll(come)) == come && |AddedAll(come)| == |come|
  {
    if come != [] {
      BodyOfAdded(come[1..]);
      assert come == [come[0]] + come[1..];
    }
  }

  lemma {:induction false} BodyOfRemoved(gone: seq<string>, come: seq<string>)
    ensures var body := RemovedAll(gone) + AddedAll(come);
            OldLines(body) == gone && NewLines(body) == come && |body| == |gone| + |come|
  {
    hide AddedAll, OldLines, NewLines;
    var body := RemovedAll(gone) + AddedAll(come);
    if gone == [] {
      BodyOfAdded(come);
      assert body == AddedAll(come);
    } else {
      BodyOfRemoved(gone[1..], come);
      var rest := RemovedAll(gone[1..]) + AddedAll(come);
      assert body == [Removed(gone[0])] + rest;
      BodyCons(Removed(gone[0]), rest);
      assert gone == [gone[0]] + gone[1..];
    }
  }

  lemma {:induction false} ContentsOfLines(lines: seq<string>)
    ensures Contents(lines) == Join(lines + [""], "\n")
  {
    if lines == [] {
      assert [] + [""] == [""];
    } else {
      ContentsOfLines(lines[1..]);
      assert (lines + [""])[0] == lines[0] && (lines + [""])[1..] == lines[1..] + [""];
    }
  }

  lemma PrintContents(contents: string)
    requires contents == "" || contents[|contents| - 1] == '\n'
    ensures Contents(DropBlankEnd(SplitOn(contents, '\n'))) == contents
  {
    hide SplitOn;
    var parts := SplitOn(contents, '\n');
    var lines := DropBlankEnd(parts);
    LastPart(contents);
    assert parts == lines + [""];
    ContentsOfLines(lines);
    assert Join(parts, "\n") == contents by { JoinOfSplit(contents, '\n'); }
  }

  lemma {:induction false} PrintChunksMeaning(chunks: seq<Chunk>, first: bool, moved: bool)
    requires forall k :: 0 <= k < |chunks| ==> chunks[k].oldLines != [] || chunks[k].newLines != []
    ensures ChunksMeaning(PrintChunks(chunks)) == chunks && ProperChunks(PrintChunks(chunks), first, moved)
    ensures |PrintChunks(chunks)| == |chunks|
    decreases |chunks|
  {
    hide OldLines, NewLines, RemovedAll, AddedAll;
    if chunks != [] {
      BodyOfRemoved(chunks[0].oldLines, chunks[0].newLines);
      PrintChunksMeaning(chunks[1..], false, moved);
      assert chunks == [chunks[0]] + chunks[1..];
    }
  }

  /** Every printable hunk has a printed form that means it. */
  lemma PrintMeaning(h: Hunk)
    requires Printable(h)
    ensures Meaning(Print(h)) == h && ProperHunk(Print(h))
  {
    hide ChunksMeaning, PrintChunks, ProperChunks, Contents, SplitOn;
    match h
    case AddFile(path, contents) => PrintContents(contents);
    case DeleteFile(path) =>
    case UpdateFile(path, move, chunks) => PrintChunksMeaning(chunks, true, move.Some?);
  }

  lemma {:induction false} PrintAllMeaning(hunks: seq<Hunk>)
    requires forall h :: h in hunks ==> Printable(h)
    ensures Meanings(PrintAll(hunks)) == hunks
    ensures forall h :: h in PrintAll(hunks) ==> ProperHunk(h)
  {
    hide Printable, Meaning, Print, ProperHunk;
    if hunks != [] {
      PrintMeaning(hunks[0]);
      PrintAllMeaning(hunks[1..]);
      assert hunks == [hunks[0]] + hunks[1..];
    }
  }

  /** Round trip on hunks: any list of printable hunks, printed and parsed, comes back. */
  lemma ParseOfPrintAll(hunks: seq<Hunk>, eol: string)
    requires forall h :: h in hunks ==> Printable(h)
    requires IsLineEnd(eol) && CleanLines(PatchLines(PrintAll(hunks)), eol)
    ensures Parse(Join(PatchLines(PrintAll(hunks)), eol)) == Ok(hunks)
  {
    hide Parse, PatchLines, PrintAll, Printable, ProperHunk, Meanings, CleanLines;
    PrintAllMeaning(hunks);
    ParseOfPrint(PrintAll(hunks), eol);
  }

  // ---------------------------------------------------------------- normal form

  predicate NoLf(lines: seq<string>) {
    forall k :: 0 <= k < |lines| ==> '\n' !in lines[k]
  }

  predicate GoodChunk(c: Chunk) {
    && (c.oldLines != [] || c.newLines != [])
    && NoLf(c.oldLines) && NoLf(c.newLines) && '\n' !in c.changeContext.GetOr("")
  }

  predicate GoodChunks(chunks: seq<Chunk>) {
    forall k :: 0 <= k < |chunks| ==> GoodChunk(chunks[k])
  }

  /** A printable hunk whose texts hold no line feed. */
  predicate GoodHunk(h: Hunk) {
    && Printable(h) && '\n' !in h.path
    && (h.UpdateFile? ==> GoodChunks(h.chunks) && '\n' !in h.movePath.GetOr(""))
  }

  predicate GoodHunks(hunks: seq<Hunk>) {
    forall k :: 0 <= k < |hunks| ==> GoodHunk(hunks[k])
  }

  lemma LineIsGood(lines: seq<string>)
    requires NoLf(lines) && lines != []
    ensures NoLf(OldOf(lines[0])) && NoLf(NewOf(lines[0]))
    ensures IsBodyLine(lines[0]) ==> OldOf(lines[0]) != [] || NewOf(lines[0]) != []
  {
    assert '\n' !in lines[0];
  }

  lemma {:induction false} BodyIsGood(lines: seq<string>)
    requires NoLf(lines)
    ensures NoLf(ReadBody(lines).oldLines) && NoLf(ReadBody(lines).newLines)
    ensures lines != [] && lines[0] != END_OF_FILE && IsBodyLine(lines[0]) ==>
              ReadBody(lines).oldLines != [] || ReadBody(lines).newLines != []
  {
    hide OldOf, NewOf, IsBodyLine, NoLf;
    NothingNoLf();
    if lines != [] {
      var b := ReadBody(lines[1..]);
      SliceNoLf(lines, 1, |lines|);
      assert lines[1..|lines|] == lines[1..];
      BodyIsGood(lines[1..]);
      LineIsGood(lines);
      NoLfAppend(OldOf(lines[0]), b.oldLines);
      NoLfAppend(NewOf(lines[0]), b.newLines);
    }
  }

  lemma SliceNoLf(lines: seq<string>, i: nat, j: nat)
    requires NoLf(lines) && i <= j <= |lines|
    ensures NoLf(lines[i..j])
  {}

  lemma ChunkIsGood(lines: seq<string>, lineNumber: nat, first: bool)
    requires NoLf(lines)
    ensures var r := ReadChunk(lines, lineNumber, first); r.Ok? ==> GoodChunk(r.value.0)
  {
    hide ReadBody, IsBodyLine, NoLf;
    if ReadChunk(lines, lineNumber, first).Ok? {
      var start := ReadContext(lines[0]).1;
      SliceNoLf(lines, start, |lines|);
      assert lines[start..|lines|] == lines[start..];
      BodyIsGood(lines[start..]);
      HeadHasNoLf(lines);
    }
  }

  lemma HeadHasNoLf(lines: seq<string>)
    requires NoLf(lines) && lines != []
    ensures '\n' !in lines[0] && '\n' !in ReadContext(lines[0]).0.GetOr("")
  {}

  lemma {:induction false} ChunksAreGood(lines: seq<string>, lineNumber: nat, first: bool)
    requires NoLf(lines)
    ensures var r := ReadChunks(lines, lineNumber, first); r.Ok? ==> GoodChunks(r.value.0)
    decreases |lines|
  {
    hide ReadChunk, Trim, GoodChunk, NoLf;
    if lines != [] && ReadChunks(lines, lineNumber, first).Ok? {
      if Trim(lines[0]) == "" {
        SliceNoLf(lines, 1, |lines|);
        assert lines[1..|lines|] == lines[1..];
        ChunksAreGood(lines[1..], lineNumber + 1, first);
      } else if !("***" <= lines[0]) {
        ChunkIsGood(lines, lineNumber, first);
        var m := ReadChunk(lines, lineNumber, first).value.1;
        SliceNoLf(lines, m, |lines|);
        assert lines[m..|lines|] == lines[m..];
        ChunksAreGood(lines[m..], lineNumber + m, false);
      }
    }
  }

  /** Behind a marker that ends in a space, a trimmed line holds a proper path. */
  lemma MarkedPath(line: string, marker: string)
    requires '\n' !in line && marker <= Trim(line) && marker != "" && IsSpace(marker[|marker| - 1])
    ensures ProperPath(Trim(line)[|marker|..]) && '\n' !in Trim(line)[|marker|..]
  {
    hide IsSpace, Trim;
    TrimEnds(line);
    TrimHasNoLf(line);
  }

  lemma TrimHasNoLf(line: string)
    requires '\n' !in line
    ensures '\n' !in Trim(line)
  {
    hide IsSpace, TrimStart, TrimEnd;
    var e := TrimEnd(line);
    assert '\n' !in e;
  }

  lemma MarkersEndInSpace()
    ensures IsSpace(ADD_FILE[|ADD_FILE| - 1]) && IsSpace(DELETE_FILE[|DELETE_FILE| - 1])
    ensures IsSpace(UPDATE_FILE[|UPDATE_FILE| - 1]) && IsSpace(MOVE_TO[|MOVE_TO| - 1])
  {}

  lemma {:induction false} AddedEnds(lines: seq<string>)
    ensures var c := ReadAdded(lines).0; c == "" || c[|c| - 1] == '\n'
  {
    if lines != [] && "+" <= lines[0] {
      AddedEnds(lines[1..]);
    }
  }

  lemma MoveIsGood(lines: seq<string>)
    requires NoLf(lines)
    ensures var m := ReadMove(lines); m.Some? ==> ProperPath(m.value) && '\n' !in m.value
  {
    hide Trim, ProperPath;
    MarkersEndInSpace();
    if lines != [] && MOVE_TO <= Trim(lines[0]) {
      MarkedPath(lines[0], MOVE_TO);
    }
  }

  lemma HunkIsGood(lines: seq<string>, lineNumber: nat)
    requires NoLf(lines) && lines != []
    ensures var r := ReadHunk(lines, lineNumber); r.Ok? ==> GoodHunk(r.value.0)
  {
    hide Trim, ReadChunks, ReadAdded, ReadMove, ProperPath, NoLf, GoodChunk;
    var header := Trim(lines[0]);
    MarkersEndInSpace();
    HeadHasNoLf(lines);
    SliceNoLf(lines, 1, |lines|);
    assert lines[1..|lines|] == lines[1..];
    if ADD_FILE <= header {
      MarkedPath(lines[0], ADD_FILE);
      AddedEnds(lines[1..]);
    } else if DELETE_FILE <= header {
      MarkedPath(lines[0], DELETE_FILE);
    } else if UPDATE_FILE <= header {
      MarkedPath(lines[0], UPDATE_FILE);
      MoveIsGood(lines[1..]);
      var start := if ReadMove(lines[1..]).Some? then 2 else 1;
      SliceNoLf(lines, start, |lines|);
      assert lines[start..|lines|] == lines[start..];
      ChunksAreGood(lines[start..], lineNumber + start, true);
      GoodChunksNotEmpty(lines[start..], lineNumber + start);
    }
  }

  lemma GoodChunksNotEmpty(lines: seq<string>, lineNumber: nat)
    ensures var r := ReadChunks(lines, lineNumber, true);
            r.Ok? && GoodChunks(r.value.0) ==>
              forall k :: 0 <= k < |r.value.0| ==> r.value.0[k].oldLines != [] || r.value.0[k].newLines != []
  {}

  lemma {:induction false} HunksAreGood(lines: seq<string>, lineNumber: nat)
    requires NoLf(lines)
    ensures var r := ReadHunks(lines, lineNumber); r.Ok? ==> GoodHunks(r.value)
    decreases |lines|
  {
    hide ReadHunk, GoodHunk, NoLf;
    if lines != [] && ReadHunks(lines, lineNumber).Ok? {
      var n := ReadHunk(lines, lineNumber).value.1;
      HunkIsGood(lines, lineNumber);
      SliceNoLf(lines, n, |lines|);
      assert lines[n..|lines|] == lines[n..];
      HunksAreGood(lines[n..], lineNumber + n);
    }
  }

  /** Whatever text is parsed: the hunks are printable. */
  lemma ParsedIsGood(text: string)
    ensures var r := Parse(text); r.Ok? ==> GoodHunks(r.value)
  {
    hide Trim, ReadHunks, GoodHunk, NoLf, StrictError, SplitOn;
    var r := Parse(text);
    if r.Ok? {
      var lines := TextLines(Trim(text));
      JoinOfSplit(Lf(Trim(text)), '\n');
      assert NoLf(lines) by { PartsNoLf(Lf(Trim(text))); }
      var valid := Validated(lines).value;
      if valid != lines {
        SliceNoLf(lines, 1, |lines| - 1);
      }
      if |valid| >= 2 {
        SliceNoLf(valid, 1, |valid| - 1);
        HunksAreGood(valid[1..|valid| - 1], 2);
      }
    }
  }

  lemma PartsNoLf(s: string)
    ensures NoLf(SplitOn(s, '\n'))
  {
    JoinOfSplit(s, '\n');
  }

  lemma NoLfAppend(a: seq<string>, b: seq<string>)
    requires NoLf(a) && NoLf(b)
    ensures NoLf(a + b)
  {}

  lemma {:induction false} BodyPrintsClean(gone: seq<string>, come: seq<string>)
    requires NoLf(gone) && NoLf(come)
    ensures NoLf(BodyLines(RemovedAll(gone) + AddedAll(come)))
  {
    var body := RemovedAll(gone) + AddedAll(come);
    if gone != [] {
      SliceNoLf(gone, 1, |gone|);
      assert gone[1..|gone|] == gone[1..];
      BodyPrintsClean(gone[1..], come);
      assert body[0] == Removed(gone[0]) && body[1..] == RemovedAll(gone[1..]) + AddedAll(come);
      NoLfAppend([body[0].Line()], BodyLines(body[1..]));
    } else if come != [] {
      SliceNoLf(come, 1, |come|);
      assert come[1..|come|] == come[1..];
      BodyPrintsClean([], come[1..]);
      assert body[0] == Added(come[0]) && body[1..] == [] + AddedAll(come[1..]);
      NoLfAppend([body[0].Line()], BodyLines(body[1..]));
    }
  }

  lemma ChunkPrintsClean(c: Chunk)
    requires GoodChunk(c)
    ensures NoLf(ChunkLines(PrintChunk(c)))
  {
    hide BodyLines, RemovedAll, AddedAll;
    var t := PrintChunk(c);
    BodyPrintsClean(c.oldLines, c.newLines);
    assert NoLf(t.header.Lines()) && NoLf(EndLines(t));
    NoLfAppend(t.header.Lines(), BodyLines(t.body));
    NoLfAppend(t.header.Lines() + BodyLines(t.body), EndLines(t));
  }

  lemma {:induction false} ChunksPrintClean(chunks: seq<Chunk>)
    requires GoodChunks(chunks)
    ensures NoLf(ChunksLines(PrintChunks(chunks)))
  {
    hide GoodChunk, ChunkLines, PrintChunk, NoLf;
    if chunks == [] {
      NothingNoLf();
    } else {
      ChunkPrintsClean(chunks[0]);
      ChunksPrintClean(chunks[1..]);
      NoLfAppend(ChunkLines(PrintChunk(chunks[0])), ChunksLines(PrintChunks(chunks[1..])));
    }
  }

  lemma NothingNoLf()
    ensures NoLf([])
  {}

  lemma {:induction false} AddedPrintsClean(lines: seq<string>)
    requires NoLf(lines)
    ensures NoLf(AddedLines(lines))
  {
    if lines != [] {
      SliceNoLf(lines, 1, |lines|);
      assert lines[1..|lines|] == lines[1..];
      AddedPrintsClean(lines[1..]);
      NoLfAppend(["+" + lines[0]], AddedLines(lines[1..]));
    }
  }

  lemma HunkPrintsClean(h: Hunk)
    requires GoodHunk(h)
    ensures NoLf(HunkLines(Print(h)))
  {
    hide ChunksLines, PrintChunks, GoodChunks, AddedLines, SplitOn, Printable, NoLf;
    match h
    case AddFile(path, contents) =>
      var parts := SplitOn(contents, '\n');
      PartsNoLf(contents);
      SliceNoLf(parts, 0, |DropBlankEnd(parts)|);
      assert DropBlankEnd(parts) == parts[0..|DropBlankEnd(parts)|];
      AddedPrintsClean(DropBlankEnd(parts));
      OneLineNoLf(ADD_FILE, path);
      NoLfAppend([ADD_FILE + path], AddedLines(DropBlankEnd(parts)));
    case DeleteFile(path) =>
      OneLineNoLf(DELETE_FILE, path);
    case UpdateFile(path, move, chunks) =>
      OneLineNoLf(UPDATE_FILE, path);
      OneLineNoLf(MOVE_TO, move.GetOr(""));
      NothingNoLf();
      ChunksPrintClean(chunks);
      NoLfAppend([UPDATE_FILE + path], MoveLines(move));
      NoLfAppend([UPDATE_FILE + path] + MoveLines(move), ChunksLines(PrintChunks(chunks)));
  }

  lemma OneLineNoLf(marker: string, path: string)
    requires '\n' !in path
    requires marker == ADD_FILE || marker == DELETE_FILE || marker == UPDATE_FILE || marker == MOVE_TO
    ensures NoLf([marker + path])
  {}

  lemma {:induction false} HunksPrintClean(hunks: seq<Hunk>)
    requires GoodHunks(hunks)
    ensures NoLf(HunksLines(PrintAll(hunks)))
  {
    hide GoodHunk, HunkLines, Print, NoLf;
    if hunks == [] {
      NothingNoLf();
    } else {
      HunkPrintsClean(hunks[0]);
      HunksPrintClean(hunks[1..]);
      NoLfAppend(HunkLines(Print(hunks[0])), HunksLines(PrintAll(hunks[1..])));
    }
  }

  /** Printing is a normal form: whatever text the parser accepts, the printed form of its hunks, with CR LF line
      ends, parses to the same hunks. */
  lemma PrintIsNormalForm(text: string)
    ensures var r := Parse(text);
            r.Ok? ==> Parse(Join(PatchLines(PrintAll(r.value)), "\r\n")) == r
  {
    hide Parse, PrintAll, GoodHunk, PatchLines;
    if Parse(text).Ok? {
      ParsedIsGood(text);
      PrintGood(Parse(text).value);
    }
  }

  lemma PrintGood(hunks: seq<Hunk>)
    requires GoodHunks(hunks)
    ensures Parse(Join(PatchLines(PrintAll(hunks)), "\r\n")) == Ok(hunks)
  {
    hide Parse, PrintAll, HunksLines, GoodHunk, PatchLines;
    HunksPrintClean(hunks);
    FrameClean(hunks);
    forall h | h in hunks ensures Printable(h) {
      var k :| 0 <= k < |hunks| && hunks[k] == h;
      GoodIsPrintable(h);
    }
    ParseOfPrintAll(hunks, "\r\n");
  }

  /** The parser's results are exactly the lists of printable hunks whose texts hold no line feed. */
  lemma ParserRange(hunks: seq<Hunk>)
    ensures (exists text :: Parse(text) == Ok(hunks)) <==> GoodHunks(hunks)
  {
    hide Parse, PrintAll, GoodHunk, PatchLines;
    if GoodHunks(hunks) {
      PrintGood(hunks);
    }
    forall text | Parse(text) == Ok(hunks) ensures GoodHunks(hunks) {
      ParsedIsGood(text);
    }
  }

  lemma GoodIsPrintable(h: Hunk)
    requires GoodHunk(h)
    ensures Printable(h)
  {}

  lemma FrameClean(hunks: seq<Hunk>)
    requires NoLf(HunksLines(PrintAll(hunks)))
    ensures CleanLines(PatchLines(PrintAll(hunks)), "\r\n")
  {
    hide HunksLines;
    var lines := HunksLines(PrintAll(hunks));
    NoLfAppend([BEGIN_PATCH], lines);
    NoLfAppend([BEGIN_PATCH] + lines, [END_PATCH]);
  }
}
