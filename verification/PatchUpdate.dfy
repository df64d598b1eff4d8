/** Locating and applying the chunks of an update, src/agents/apply-patch-update.ts. A file is its text. */
module PatchUpdate {
  import opened Text

  datatype Chunk = Chunk(changeContext: Option<string>, oldLines: seq<string>, newLines: seq<string>, isEndOfFile: bool)

  datatype Replacement = Replacement(start: nat, oldLen: nat, newLines: seq<string>) {
    function End(): nat { start + oldLen }
  }

  datatype UpdateError = ContextNotFound(context: string) | LinesNotFound(oldLines: seq<string>)

  // ---------------------------------------------------------------- line search

  function PlainChar(c: char): char {
    if '\U{2010}' <= c <= '\U{2015}' || c == '\U{2212}' then '-'
    else if '\U{2018}' <= c <= '\U{201B}' then '\''
    else if '\U{201C}' <= c <= '\U{201F}' then '"'
    else if c == '\U{00A0}' || '\U{2002}' <= c <= '\U{200A}' || c == '\U{202F}' || c == '\U{205F}' || c == '\U{3000}'
        then ' '
    else c
  }

  function NormalizePunctuation(s: string): string {
    seq(|s|, k requires 0 <= k < |s| => PlainChar(s[k]))
  }

  /** How two lines are compared, from the strictest way to the loosest. */
  datatype Tier = Exact | EndTrimmed | Trimmed | Punctuation {
    function Rank(): nat {
      match this
      case Exact => 0
      case EndTrimmed => 1
      case Trimmed => 2
      case Punctuation => 3
    }
  }

  function Normalize(t: Tier, s: string): string {
    match t
    case Exact => s
    case EndTrimmed => TrimEnd(s)
    case Trimmed => Trim(s)
    case Punctuation => NormalizePunctuation(Trim(s))
  }

  predicate MatchAt(lines: seq<string>, pattern: seq<string>, i: nat, t: Tier) {
    i + |pattern| <= |lines| && forall k :: 0 <= k < |pattern| ==>
        Normalize(t, lines[i + k]) == Normalize(t, pattern[k])
  }

  method LinesMatch(lines: seq<string>, pattern: seq<string>, start: nat, t: Tier) returns (r: bool)
    requires start + |pattern| <= |lines|
    ensures r == MatchAt(lines, pattern, start, t)
  {
    hide Normalize;
    for idx := 0 to |pattern|
      invariant forall k :: 0 <= k < idx ==> Normalize(t, lines[start + k]) == Normalize(t, pattern[k])
    {
      if Normalize(t, lines[start + idx]) != Normalize(t, pattern[idx]) {
        return false;
      }
    }
    return true;
  }

  /** The lowest match at or after i. */
  function FirstMatch(lines: seq<string>, pattern: seq<string>, i: nat, t: Tier): Option<nat>
    decreases |lines| - i
  {
    if i + |pattern| > |lines| then None
    else if MatchAt(lines, pattern, i, t) then Some(i)
    else if i == |lines| then None
    else FirstMatch(lines, pattern, i + 1, t)
  }

  function SearchStart(lines: seq<string>, pattern: seq<string>, start: nat, eof: bool): nat {
    if eof && |lines| >= |pattern| then |lines| - |pattern| else start
  }

  function Seek(lines: seq<string>, pattern: seq<string>, start: nat, eof: bool): Option<nat> {
    if pattern == [] then Some(start)
    else
      var i := SearchStart(lines, pattern, start, eof);
      OrElse(FirstMatch(lines, pattern, i, Exact), OrElse(FirstMatch(lines, pattern, i, EndTrimmed),
        OrElse(FirstMatch(lines, pattern, i, Trimmed), FirstMatch(lines, pattern, i, Punctuation))))
  }

  method SeekTier(lines: seq<string>, pattern: seq<string>, searchStart: nat, t: Tier) returns (found: Option<nat>)
    requires |pattern| > 0 && searchStart + |pattern| <= |lines|
    ensures found == FirstMatch(lines, pattern, searchStart, t)
  {
    hide MatchAt;
    var maxStart := |lines| - |pattern|;
    var i := searchStart;
    while i <= maxStart
      invariant searchStart <= i <= maxStart + 1
      invariant FirstMatch(lines, pattern, i, t) == FirstMatch(lines, pattern, searchStart, t)
    {
      var matches := LinesMatch(lines, pattern, i, t);
      if matches {
        return Some(i);
      }
      i := i + 1;
    }
    return None;
  }

  method SeekSequence(lines: seq<string>, pattern: seq<string>, start: nat, eof: bool) returns (found: Option<nat>)
    ensures found == Seek(lines, pattern, start, eof)
  {
    hide MatchAt;
    if pattern == [] {
      return Some(start);
    }
    if |pattern| > |lines| {
      return None;
    }
    var maxStart := |lines| - |pattern|;
    var searchStart := if eof && |lines| >= |pattern| then maxStart else start;
    if searchStart > maxStart {
      return None;
    }
    found := SeekTier(lines, pattern, searchStart, Exact);
    if found.Some? { return; }
    found := SeekTier(lines, pattern, searchStart, EndTrimmed);
    if found.Some? { return; }
    found := SeekTier(lines, pattern, searchStart, Trimmed);
    if found.Some? { return; }
    found := SeekTier(lines, pattern, searchStart, Punctuation);
  }

  lemma NoMatchBehind(lines: seq<string>, pattern: seq<string>, t: Tier)
    ensures forall j: nat :: j + |pattern| > |lines| ==> !MatchAt(lines, pattern, j, t)
  {}

  lemma {:induction false} FirstMatchIsLowest(lines: seq<string>, pattern: seq<string>, i: nat, t: Tier)
    ensures match FirstMatch(lines, pattern, i, t)
            case None => forall j: nat :: j >= i ==> !MatchAt(lines, pattern, j, t)
            case Some(r) =>
              r >= i && MatchAt(lines, pattern, r, t) && forall j: nat :: i <= j < r ==> !MatchAt(lines, pattern, j, t)
    decreases |lines| - i
  {
    hide MatchAt;
    NoMatchBehind(lines, pattern, t);
    if i + |pattern| <= |lines| && !MatchAt(lines, pattern, i, t) && i < |lines| {
      FirstMatchIsLowest(lines, pattern, i + 1, t);
    }
  }

  /** A match stays a match under every looser comparison. */
  lemma LooserMatches(lines: seq<string>, pattern: seq<string>, i: nat, t: Tier, looser: Tier)
    requires MatchAt(lines, pattern, i, t) && t.Rank() <= looser.Rank()
    ensures MatchAt(lines, pattern, i, looser)
  {}

  /** The result is the lowest position of the strictest tier that has a match in range; there is none exactly
      when even the loosest tier has none. */
  lemma SeekMeaning(lines: seq<string>, pattern: seq<string>, start: nat, eof: bool)
    requires pattern != []
    ensures var lo := SearchStart(lines, pattern, start, eof);
            match Seek(lines, pattern, start, eof)
            case None => forall j: nat :: j >= lo ==> !MatchAt(lines, pattern, j, Punctuation)
            case Some(r) =>
              && MatchAt(lines, pattern, r, Punctuation)
              && r >= lo
              && exists t :: MatchAt(lines, pattern, r, t)
                   && (forall j: nat :: lo <= j < r ==> !MatchAt(lines, pattern, j, t))
                   && (forall j: nat, s: Tier :: j >= lo && s.Rank() < t.Rank() ==> !MatchAt(lines, pattern, j, s))
  {
    hide MatchAt, FirstMatch;
    var lo := SearchStart(lines, pattern, start, eof);
    FirstMatchIsLowest(lines, pattern, lo, Exact);
    FirstMatchIsLowest(lines, pattern, lo, EndTrimmed);
    FirstMatchIsLowest(lines, pattern, lo, Trimmed);
    FirstMatchIsLowest(lines, pattern, lo, Punctuation);
    var r := Seek(lines, pattern, start, eof);
    if r.Some? {
      var t := if FirstMatch(lines, pattern, lo, Exact).Some? then Exact
               else if FirstMatch(lines, pattern, lo, EndTrimmed).Some? then EndTrimmed
               else if FirstMatch(lines, pattern, lo, Trimmed).Some? then Trimmed else Punctuation;
      LooserMatches(lines, pattern, r.value, t, Punctuation);
    }
  }

  /** With the end-of-file mark a match ends at the last line. */
  lemma EofMatchesAtEnd(lines: seq<string>, pattern: seq<string>, start: nat)
    requires pattern != []
    ensures var r := Seek(lines, pattern, start, true); r.Some? ==> r.value + |pattern| == |lines|
  {
    SeekMeaning(lines, pattern, start, true);
  }

  // ---------------------------------------------------------------- locating the chunks

  predicate EndsBlank(lines: seq<string>) {
    lines != [] && lines[|lines| - 1] == ""
  }

  /** Where a chunk without old lines goes: the end of the file, before a blank last line. */
  function InsertionIndex(lines: seq<string>): nat {
    if EndsBlank(lines) then |lines| - 1 else |lines|
  }

  function DropBlankEnd(lines: seq<string>): seq<string> {
    if EndsBlank(lines) then lines[..|lines| - 1] else lines
  }

  /** The line to search from: the running one, or the line behind the chunk's context. */
  function SearchFrom(lines: seq<string>, chunk: Chunk, lineIndex: nat): Result<nat, UpdateError> {
    if chunk.changeContext.GetOr("") == "" then Ok(lineIndex)
    else
      match Seek(lines, [chunk.changeContext.value], lineIndex, false)
      case None => Err(ContextNotFound(chunk.changeContext.value))
      case Some(i) => Ok(i + 1)
  }

  /** The old lines are searched for as they are, then without a blank last line. */
  function FindOldLines(lines: seq<string>, chunk: Chunk, from: nat): Option<Replacement> {
    var n := |chunk.oldLines|;
    match Seek(lines, chunk.oldLines, from, chunk.isEndOfFile)
    case Some(i) => Some(Replacement(i, n, chunk.newLines))
    case None =>
      if n > 0 && chunk.oldLines[n - 1] == "" then
        match Seek(lines, chunk.oldLines[..n - 1], from, chunk.isEndOfFile)
        case Some(i) => Some(Replacement(i, n - 1, DropBlankEnd(chunk.newLines)))
        case None => None
      else None
  }

  /** A chunk's replacement and the running line behind it. */
  function LocateChunk(lines: seq<string>, chunk: Chunk, lineIndex: nat): Result<(Replacement, nat), UpdateError> {
    match SearchFrom(lines, chunk, lineIndex)
    case Err(e) => Err(e)
    case Ok(from) =>
      if chunk.oldLines == [] then Ok((Replacement(InsertionIndex(lines), 0, chunk.newLines), from))
      else
        match FindOldLines(lines, chunk, from)
        case None => Err(LinesNotFound(chunk.oldLines))
        case Some(r) => Ok((r, r.End()))
  }

  /** The replacements in the order of the chunks. */
  function Locate(lines: seq<string>, chunks: seq<Chunk>, lineIndex: nat): Result<seq<Replacement>, UpdateError>
    decreases |chunks|
  {
    if chunks == [] then Ok([])
    else
      match LocateChunk(lines, chunks[0], lineIndex)
      case Err(e) => Err(e)
      case Ok((r, next)) =>
        match Locate(lines, chunks[1..], next)
        case Err(e) => Err(e)
        case Ok(rest) => Ok([r] + rest)
  }

  /** Puts x behind the last entry that does not start later. */
  function Insert(rs: seq<Replacement>, x: Replacement): seq<Replacement> {
    if rs == [] || rs[|rs| - 1].start <= x.start then rs + [x]
    else Insert(rs[..|rs| - 1], x) + [rs[|rs| - 1]]
  }

  /** The library's stable sort by start. */
  function SortByStart(rs: seq<Replacement>): seq<Replacement> {
    if rs == [] then [] else Insert(SortByStart(rs[..|rs| - 1]), rs[|rs| - 1])
  }

  function Replacements(lines: seq<string>, chunks: seq<Chunk>): Result<seq<Replacement>, UpdateError> {
    match Locate(lines, chunks, 0)
    case Err(e) => Err(e)
    case Ok(rs) => Ok(SortByStart(rs))
  }

  method ComputeReplacements(
    originalLines: seq<string>, chunks: seq<Chunk>) returns (r: Result<seq<Replacement>, UpdateError>)
    ensures r == Replacements(originalLines, chunks)
  {
    hide Seek, SortByStart, FindOldLines;
    var replacements := [];
    var lineIndex: nat := 0;
    assert chunks[0..] == chunks;
    PrependNothing(Locate(originalLines, chunks, 0));
    for k := 0 to |chunks|
      invariant Locate(originalLines, chunks, 0) == Prepend(replacements, Locate(originalLines, chunks[k..], lineIndex))
    {
      var chunk := chunks[k];
      LocateStep(originalLines, chunks[k..], lineIndex, replacements);
      assert chunks[k..][1..] == chunks[k + 1..];
      if chunk.changeContext.GetOr("") != "" {
        var ctxIndex := SeekSequence(originalLines, [chunk.changeContext.value], lineIndex, false);
        if ctxIndex.None? {
          return Err(ContextNotFound(chunk.changeContext.value));
        }
        lineIndex := ctxIndex.value + 1;
      }
      if chunk.oldLines == [] {
        var insertionIndex := if originalLines != [] && originalLines[|originalLines| - 1] == ""
                              then |originalLines| - 1 else |originalLines|;
        replacements := replacements + [Replacement(insertionIndex, 0, chunk.newLines)];
        continue;
      }
      var found := LocateOldLines(originalLines, chunk, lineIndex);
      if found.None? {
        return Err(LinesNotFound(chunk.oldLines));
      }
      replacements := replacements + [found.value];
      lineIndex := found.value.End();
    }
    assert chunks[|chunks|..] == [];
    assert replacements + [] == replacements;
    return Ok(SortByStart(replacements));
  }

  /** The part of the loop's body that looks for the old lines. */
  method LocateOldLines(lines: seq<string>, chunk: Chunk, lineIndex: nat) returns (r: Option<Replacement>)
    ensures r == FindOldLines(lines, chunk, lineIndex)
  {
    hide Seek;
    var pattern := chunk.oldLines;
    var newSlice := chunk.newLines;
    var found := SeekSequence(lines, pattern, lineIndex, chunk.isEndOfFile);
    if found.None? && pattern != [] && pattern[|pattern| - 1] == "" {
      pattern := pattern[..|pattern| - 1];
      if newSlice != [] && newSlice[|newSlice| - 1] == "" {
        newSlice := newSlice[..|newSlice| - 1];
      }
      found := SeekSequence(lines, pattern, lineIndex, chunk.isEndOfFile);
    }
    return if found.None? then None else Some(Replacement(found.value, |pattern|, newSlice));
  }

  function Prepend(
    done: seq<Replacement>, r: Result<seq<Replacement>, UpdateError>): Result<seq<Replacement>, UpdateError> {
    match r
    case Err(e) => Err(e)
    case Ok(rest) => Ok(done + rest)
  }

  lemma PrependNothing(r: Result<seq<Replacement>, UpdateError>)
    ensures Prepend([], r) == r
  {
    if r.Ok? {
      assert [] + r.value == r.value;
    }
  }

  lemma LocateStep(lines: seq<string>, chunks: seq<Chunk>, lineIndex: nat, done: seq<Replacement>)
    requires chunks != []
    ensures Prepend(done, Locate(lines, chunks, lineIndex))
         == match LocateChunk(lines, chunks[0], lineIndex)
            case Err(e) => Err(e)
            case Ok(step) => Prepend(done + [step.0], Locate(lines, chunks[1..], step.1))
  {
    hide LocateChunk;
    match LocateChunk(lines, chunks[0], lineIndex)
    case Err(e) =>
    case Ok(step) =>
      match Locate(lines, chunks[1..], step.1)
      case Err(e) =>
      case Ok(rest) => assert done + ([step.0] + rest) == done + [step.0] + rest;
  }

  // ---------------------------------------------------------------- applying

  function Spliced(result: seq<string>, r: Replacement): seq<string> {
    var a := if r.start < |result| then r.start else |result|;
    var b := if r.End() < |result| then r.End() else |result|;
    result[..a] + r.newLines + result[b..]
  }

  /** The replacements applied from the last one to the first. */
  function BackToFront(lines: seq<string>, rs: seq<Replacement>): seq<string> {
    if rs == [] then lines else Spliced(BackToFront(lines, rs[1..]), rs[0])
  }

  /** `result.splice(i, 0, x)` */
  function InsertAt(result: seq<string>, i: nat, x: string): seq<string> {
    if i < |result| then result[..i] + [x] + result[i..] else result + [x]
  }

  method ApplyReplacements(lines: seq<string>, replacements: seq<Replacement>) returns (result: seq<string>)
    ensures result == BackToFront(lines, replacements)
  {
    hide Spliced;
    result := lines;
    var n := |replacements|;
    while n > 0
      invariant 0 <= n <= |replacements|
      invariant result == BackToFront(lines, replacements[n..])
    {
      n := n - 1;
      assert replacements[n..][1..] == replacements[n + 1..];
      result := Splice(result, replacements[n]);
    }
    assert replacements[0..] == replacements;
  }

  /** The two inner loops: delete line by line, then insert line by line. */
  method Splice(lines: seq<string>, r: Replacement) returns (result: seq<string>)
    ensures result == Spliced(lines, r)
  {
    result := lines;
    var a := if r.start < |lines| then r.start else |lines|;
    var b := if r.End() < |lines| then r.End() else |lines|;
    for i := 0 to r.oldLen
      invariant result == lines[..a] + lines[if a + i < b then a + i else b..]
    {
      if r.start < |result| {
        result := result[..r.start] + result[r.start + 1..];
      }
    }
    assert lines[..a] + [] == lines[..a];
    for i := 0 to |r.newLines|
      invariant result == lines[..a] + r.newLines[..i] + lines[b..]
    {
      result := InsertAt(result, r.start + i, r.newLines[i]);
      assert r.newLines[..i + 1] == r.newLines[..i] + [r.newLines[i]];
    }
    assert r.newLines[..|r.newLines|] == r.newLines;
  }

  /** In bounds, in order and disjoint, from line pos on. */
  predicate Ordered(rs: seq<Replacement>, pos: nat, n: nat) {
    if rs == [] then pos <= n
    else pos <= rs[0].start && Ordered(rs[1..], rs[0].End(), n)
  }

  /** What the replacements mean, in one pass from line pos on: copy the gap, substitute the slice. */
  function OnePass(lines: seq<string>, rs: seq<Replacement>, pos: nat): seq<string>
    requires Ordered(rs, pos, |lines|)
    decreases |rs|
  {
    OrderedBounds(rs, pos, |lines|);
    if rs == [] then lines[pos..]
    else lines[pos..rs[0].start] + rs[0].newLines + OnePass(lines, rs[1..], rs[0].End())
  }

  lemma {:induction false} OrderedBounds(rs: seq<Replacement>, pos: nat, n: nat)
    requires Ordered(rs, pos, n)
    ensures pos <= n && (rs != [] ==> rs[0].End() <= n)
  {
    if rs != [] {
      OrderedBounds(rs[1..], rs[0].End(), n);
    }
  }

  /** Back to front, the lines before pos are never touched and the rest is the single pass. */
  lemma {:induction false} BackToFrontIsOnePass(lines: seq<string>, rs: seq<Replacement>, pos: nat)
    requires Ordered(rs, pos, |lines|)
    ensures pos <= |lines| && BackToFront(lines, rs) == lines[..pos] + OnePass(lines, rs, pos)
    decreases |rs|
  {
    OrderedBounds(rs, pos, |lines|);
    if rs != [] {
      var r := rs[0];
      var rest := OnePass(lines, rs[1..], r.End());
      BackToFrontIsOnePass(lines, rs[1..], r.End());
      var result := lines[..r.End()] + rest;
      assert result[..r.start] == lines[..r.start] && result[r.End()..] == rest;
      assert lines[..r.start] == lines[..pos] + lines[pos..r.start];
      assert lines[..pos] + lines[pos..r.start] + r.newLines + rest
          == lines[..pos] + (lines[pos..r.start] + r.newLines + rest);
    }
  }

  /** The in-place edit means the single left-to-right pass. */
  lemma InPlaceEditMeaning(lines: seq<string>, rs: seq<Replacement>)
    requires Ordered(rs, 0, |lines|)
    ensures BackToFront(lines, rs) == OnePass(lines, rs, 0)
  {
    BackToFrontIsOnePass(lines, rs, 0);
    assert lines[..0] + OnePass(lines, rs, 0) == OnePass(lines, rs, 0);
  }

  // ---------------------------------------------------------------- order and disjointness

  predicate Sorted(rs: seq<Replacement>) {
    forall i, j :: 0 <= i < j < |rs| ==> rs[i].start <= rs[j].start
  }

  lemma InsertLast(rs: seq<Replacement>, x: Replacement)
    requires rs == [] || rs[|rs| - 1].start <= x.start
    ensures Insert(rs, x) == rs + [x]
  {}

  lemma InsertBeforeLast(rs: seq<Replacement>, x: Replacement)
    requires rs != [] && rs[|rs| - 1].start > x.start
    ensures Insert(rs, x) == Insert(rs[..|rs| - 1], x) + [rs[|rs| - 1]]
  {}

  /** Insertion keeps the order of what is there and puts x behind all that do not start later. */
  lemma {:induction false} InsertPosition(rs: seq<Replacement>, x: Replacement) returns (p: nat)
    requires Sorted(rs)
    ensures p <= |rs| && Insert(rs, x) == rs[..p] + [x] + rs[p..]
    ensures forall i :: 0 <= i < p ==> rs[i].start <= x.start
    ensures forall i :: p <= i < |rs| ==> rs[i].start > x.start
  {
    hide Insert;
    if rs == [] || rs[|rs| - 1].start <= x.start {
      p := |rs|;
      InsertLast(rs, x);
      assert rs[..p] + [x] + rs[p..] == rs + [x];
    } else {
      var n := |rs| - 1;
      InsertBeforeLast(rs, x);
      p := InsertPosition(rs[..n], x);
      assert rs[..n][..p] == rs[..p] && rs[..n][p..] + [rs[n]] == rs[p..];
      assert rs[..p] + [x] + rs[..n][p..] + [rs[n]] == rs[..p] + [x] + (rs[..n][p..] + [rs[n]]);
    }
  }

  lemma {:induction false} InsertMembers(rs: seq<Replacement>, x: Replacement)
    ensures multiset(Insert(rs, x)) == multiset(rs) + multiset{x}
  {
    if rs != [] && rs[|rs| - 1].start > x.start {
      InsertMembers(rs[..|rs| - 1], x);
      assert rs == rs[..|rs| - 1] + [rs[|rs| - 1]];
    }
  }

  lemma InsertSorts(rs: seq<Replacement>, x: Replacement)
    requires Sorted(rs)
    ensures Sorted(Insert(rs, x))
  {
    hide Insert;
    var p := InsertPosition(rs, x);
  }

  lemma {:induction false} SortSorts(rs: seq<Replacement>)
    ensures Sorted(SortByStart(rs)) && multiset(SortByStart(rs)) == multiset(rs)
  {
    hide Insert, Sorted, SortByStart;
    if rs == [] {
      NothingSorts();
    } else {
      var init, x := rs[..|rs| - 1], rs[|rs| - 1];
      SortLast(rs);
      SortSorts(init);
      InsertSorts(SortByStart(init), x);
      InsertMembers(SortByStart(init), x);
      assert rs == init + [x];
    }
  }

  lemma NothingSorts()
    ensures SortByStart([]) == [] && Sorted([])
  {}

  lemma SortLast(rs: seq<Replacement>)
    requires rs != []
    ensures SortByStart(rs) == Insert(SortByStart(rs[..|rs| - 1]), rs[|rs| - 1])
  {}

  /** Sorting leaves a sorted list as it is. */
  lemma {:induction false} SortKeepsSorted(rs: seq<Replacement>)
    requires Sorted(rs)
    ensures SortByStart(rs) == rs
  {
    hide SortByStart;
    if rs == [] {
      NothingSorts();
    } else {
      var init, x := rs[..|rs| - 1], rs[|rs| - 1];
      SortLast(rs);
      SortKeepsSorted(init);
      InsertLast(init, x);
      assert rs == init + [x];
    }
  }

  /** The entries that start on a line, in the order of the list. */
  function StartingAt(rs: seq<Replacement>, line: nat): seq<Replacement> {
    if rs == [] then []
    else StartingAt(rs[..|rs| - 1], line) + if rs[|rs| - 1].start == line then [rs[|rs| - 1]] else []
  }

  lemma {:induction false} StartingAppend(a: seq<Replacement>, b: seq<Replacement>, line: nat)
    ensures StartingAt(a + b, line) == StartingAt(a, line) + StartingAt(b, line)
  {
    if b == [] {
      assert a + b == a;
    } else {
      var n := |b| - 1;
      assert (a + b)[..|a| + n] == a + b[..n] && (a + b)[|a| + n] == b[n];
      StartingAppend(a, b[..n], line);
    }
  }

  lemma {:induction false} NoneStarting(rs: seq<Replacement>, line: nat)
    requires forall i :: 0 <= i < |rs| ==> rs[i].start != line
    ensures StartingAt(rs, line) == []
  {
    if rs != [] {
      NoneStarting(rs[..|rs| - 1], line);
    }
  }

  lemma InsertIsStable(rs: seq<Replacement>, x: Replacement, line: nat)
    requires Sorted(rs)
    ensures StartingAt(Insert(rs, x), line) == StartingAt(rs + [x], line)
  {
    hide Insert, StartingAt;
    var p := InsertPosition(rs, x);
    var a, b := rs[..p], rs[p..];
    assert rs == a + b;
    StartingAppend(a + [x], b, line);
    StartingAppend(a, [x], line);
    StartingAppend(rs, [x], line);
    StartingAppend(a, b, line);
    if x.start == line {
      NoneStarting(b, line);
    } else {
      NoneStarting([x], line);
    }
  }

  lemma SortedByStart(rs: seq<Replacement>)
    ensures Sorted(SortByStart(rs))
  {
    SortSorts(rs);
  }

  lemma InsertKeepsOrder(rs: seq<Replacement>, x: Replacement, line: nat)
    requires StartingAt(SortByStart(rs), line) == StartingAt(rs, line)
    ensures StartingAt(Insert(SortByStart(rs), x), line) == StartingAt(rs + [x], line)
  {
    hide Insert, SortByStart, Sorted, StartingAt;
    var sorted := SortByStart(rs);
    SortedByStart(rs);
    InsertIsStable(sorted, x, line);
    StartingAppend(sorted, [x], line);
    StartingAppend(rs, [x], line);
  }

  /** The sort is stable: whatever the list, the entries that start on a line come out in their given order. */
  lemma {:induction false} SortIsStable(rs: seq<Replacement>, line: nat)
    ensures StartingAt(SortByStart(rs), line) == StartingAt(rs, line)
  {
    hide Insert, SortByStart, StartingAt;
    if rs == [] {
      NothingSorts();
    } else {
      var init, x := rs[..|rs| - 1], rs[|rs| - 1];
      SortLast(rs);
      SortIsStable(init, line);
      InsertKeepsOrder(init, x, line);
      assert rs == init + [x];
    }
  }

  /** q was located after p: sorted, they do not overlap, and q does not come before p unless it ends there. */
  predicate NoClash(p: Replacement, q: Replacement) {
    if q.start < p.start then q.End() <= p.start else p.End() <= q.start
  }

  predicate Disjoint(rs: seq<Replacement>) {
    forall i, j :: 0 <= i < j < |rs| ==> rs[i].End() <= rs[j].start
  }

  predicate Within(rs: seq<Replacement>, lo: nat, n: nat) {
    forall i :: 0 <= i < |rs| ==> lo <= rs[i].start && rs[i].End() <= n
  }

  predicate NoClashes(rs: seq<Replacement>) {
    forall i, j :: 0 <= i < j < |rs| ==> NoClash(rs[i], rs[j])
  }

  lemma {:induction false} OrderedIsDisjoint(rs: seq<Replacement>, pos: nat, n: nat)
    requires pos <= n
    ensures Ordered(rs, pos, n) <==> Within(rs, pos, n) && Disjoint(rs)
  {
    if rs != [] {
      var r, rest := rs[0], rs[1..];
      assert forall i :: 0 < i < |rs| ==> rs[i] == rest[i - 1];
      if r.End() <= n {
        OrderedIsDisjoint(rest, r.End(), n);
        if Within(rs, pos, n) && Disjoint(rs) {
          assert forall i :: 0 <= i < |rest| ==> rest[i] == rs[i + 1];
        }
      } else if Ordered(rs, pos, n) {
        OrderedBounds(rs, pos, n);
      }
    }
  }

  predicate ClearOf(rs: seq<Replacement>, x: Replacement) {
    forall r :: r in rs ==> NoClash(r, x)
  }

  lemma InsertDisjointIff(t: seq<Replacement>, x: Replacement)
    requires Sorted(t)
    ensures Disjoint(Insert(t, x)) <==> Disjoint(t) && ClearOf(t, x)
  {
    hide Insert, NoClash;
    var p := InsertPosition(t, x);
    DisjointAround(t[..p], x, t[p..]);
    assert t == t[..p] + t[p..];
    assert ClearOf(t, x) <==> ClearOf(t[..p], x) && ClearOf(t[p..], x);
    assert forall r :: r in t[..p] ==> r.start <= x.start;
    assert forall r :: r in t[p..] ==> x.start < r.start;
    ClearBefore(t[..p], x);
    ClearBehind(t[p..], x);
  }

  predicate AllEndBy(rs: seq<Replacement>, line: nat) {
    forall r :: r in rs ==> r.End() <= line
  }

  predicate AllStartFrom(rs: seq<Replacement>, line: nat) {
    forall r :: r in rs ==> line <= r.start
  }

  lemma ClearBefore(rs: seq<Replacement>, x: Replacement)
    requires forall r :: r in rs ==> r.start <= x.start
    ensures ClearOf(rs, x) <==> AllEndBy(rs, x.start)
  {}

  lemma ClearBehind(rs: seq<Replacement>, x: Replacement)
    requires forall r :: r in rs ==> x.start < r.start
    ensures ClearOf(rs, x) <==> AllStartFrom(rs, x.End())
  {}

  lemma DisjointAround(a: seq<Replacement>, x: Replacement, b: seq<Replacement>)
    ensures Disjoint(a + [x] + b) <==> Disjoint(a + b) && AllEndBy(a, x.start) && AllStartFrom(b, x.End())
  {
    var t, u, p := a + b, a + [x] + b, |a|;
    if Disjoint(u) {
      forall i, j | 0 <= i < j < |t| ensures t[i].End() <= t[j].start {
        assert t[i] == u[if i < p then i else i + 1] && t[j] == u[if j < p then j else j + 1];
      }
      forall i | 0 <= i < p ensures a[i].End() <= x.start { assert a[i] == u[i] && u[p] == x; }
      forall i | 0 <= i < |b| ensures x.End() <= b[i].start { assert b[i] == u[p + 1 + i] && u[p] == x; }
    }
    if Disjoint(t) && AllEndBy(a, x.start) && AllStartFrom(b, x.End()) {
      forall i, j | 0 <= i < j < |u| ensures u[i].End() <= u[j].start {
        assert i == p || u[i] == t[if i < p then i else i - 1];
        assert j == p || u[j] == t[if j < p then j else j - 1];
        assert i < p ==> a[i] in a && u[i] == a[i];
        assert j > p ==> b[j - p - 1] in b && u[j] == b[j - p - 1];
      }
    }
  }

  lemma ClashesPush(init: seq<Replacement>, x: Replacement)
    ensures NoClashes(init + [x]) <==> NoClashes(init) && ClearOf(init, x)
  {
    hide NoClash;
    var rs := init + [x];
    assert forall i :: 0 <= i < |init| ==> rs[i] == init[i];
    assert rs[|init|] == x;
  }

  lemma {:induction false} SortedDisjointIff(rs: seq<Replacement>)
    ensures Disjoint(SortByStart(rs)) <==> NoClashes(rs)
  {
    if rs != [] {
      hide Insert, Disjoint, NoClashes, NoClash;
      var n := |rs| - 1;
      var t, x := SortByStart(rs[..n]), rs[n];
      assert rs == rs[..n] + [x];
      SortSorts(rs[..n]);
      SortedDisjointIff(rs[..n]);
      InsertDisjointIff(t, x);
      SameMembers(t, rs[..n]);
      ClashesPush(rs[..n], x);
    }
  }

  lemma SameMembers(a: seq<Replacement>, b: seq<Replacement>)
    requires multiset(a) == multiset(b)
    ensures forall r :: r in a <==> r in b
  {
    forall r ensures r in a <==> r in b {
      assert r in a <==> r in multiset(a);
      assert r in b <==> r in multiset(b);
    }
  }

  /** Sorted, the located replacements meet the precondition of the single pass exactly when they are within the
      file and no two of them clash. */
  lemma SortedIsOrderedIff(rs: seq<Replacement>, n: nat)
    ensures Ordered(SortByStart(rs), 0, n) <==> Within(rs, 0, n) && NoClashes(rs)
  {
    hide Sorted, Disjoint, NoClashes, Ordered, SortByStart;
    var t := SortByStart(rs);
    SortSorts(rs);
    SameMembers(t, rs);
    SortedDisjointIff(rs);
    OrderedIsDisjoint(t, 0, n);
    assert Within(t, 0, n) <==> (forall r :: r in t ==> r.End() <= n);
    assert Within(rs, 0, n) <==> (forall r :: r in rs ==> r.End() <= n);
  }

  // ---------------------------------------------------------------- what is located

  /** The replacement covers lines that match the chunk's old lines, all of them or all but a blank last one,
      and brings the chunk's new lines. */
  ghost predicate Covers(lines: seq<string>, chunk: Chunk, r: Replacement) {
    var n := |chunk.oldLines|;
    && r.End() <= |lines| && r.oldLen <= n
    && (exists t :: MatchAt(lines, chunk.oldLines[..r.oldLen], r.start, t))
    && (|| (r.oldLen == n && r.newLines == chunk.newLines)
        || (r.oldLen + 1 == n && chunk.oldLines[n - 1] == "" && r.newLines == DropBlankEnd(chunk.newLines)))
  }

  lemma SeekRange(lines: seq<string>, pattern: seq<string>, start: nat, eof: bool)
    requires start <= |lines|
    ensures var r := Seek(lines, pattern, start, eof);
            r.Some? ==>
              && r.value + |pattern| <= |lines| && (exists t :: MatchAt(lines, pattern, r.value, t))
              && (if eof && pattern != [] then r.value + |pattern| == |lines| else r.value >= start)
  {
    if pattern == [] {
      assert MatchAt(lines, pattern, start, Exact);
    } else {
      SeekMeaning(lines, pattern, start, eof);
    }
  }

  lemma SearchFromRange(lines: seq<string>, chunk: Chunk, lineIndex: nat)
    requires lineIndex <= |lines|
    ensures var r := SearchFrom(lines, chunk, lineIndex); r.Ok? ==> lineIndex <= r.value <= |lines|
  {
    if chunk.changeContext.Some? {
      SeekRange(lines, [chunk.changeContext.value], lineIndex, false);
    }
  }

  lemma FoundCovers(lines: seq<string>, chunk: Chunk, from: nat)
    requires from <= |lines|
    ensures var r := FindOldLines(lines, chunk, from);
            r.Some? ==> Covers(lines, chunk, r.value) && Found(lines, chunk, from, r.value)
  {
    hide MatchAt, Seek;
    var n := |chunk.oldLines|;
    assert chunk.oldLines[..n] == chunk.oldLines;
    SeekRange(lines, chunk.oldLines, from, chunk.isEndOfFile);
    if n > 0 {
      SeekRange(lines, chunk.oldLines[..n - 1], from, chunk.isEndOfFile);
      if EndsBlank(lines) && from < |lines| {
        BlankEndIsFound(lines, from, chunk.isEndOfFile);
        assert n == 1 && chunk.oldLines[0] == "" ==> chunk.oldLines == [""];
      }
    }
  }

  /** Where a chunk's old lines are found: at the end for an end-of-file chunk, otherwise at or behind the line
      searched from. A blank line is missed, and its text inserted, only behind a file that ends in one. */
  predicate Found(lines: seq<string>, chunk: Chunk, from: nat, r: Replacement) {
    && r.End() <= |lines|
    && (if chunk.isEndOfFile && r.oldLen > 0 then r.End() == |lines| else r.start >= from)
    && (r.oldLen == 0 && chunk.oldLines != [] && EndsBlank(lines) ==> r.start == |lines|)
  }

  lemma BlankEndIsFound(lines: seq<string>, from: nat, eof: bool)
    requires EndsBlank(lines) && from < |lines|
    ensures Seek(lines, [""], from, eof).Some?
  {
    hide Seek, MatchAt;
    var last := |lines| - 1;
    BlankMatches(lines, last);
    SeekMeaning(lines, [""], from, eof);
  }

  lemma BlankMatches(lines: seq<string>, i: nat)
    requires i < |lines| && lines[i] == ""
    ensures MatchAt(lines, [""], i, Punctuation)
  {
    hide Normalize;
    assert lines[i + 0] == [""][0];
  }

  /** What later chunks can run into: the end of the lines that chunks with old lines have replaced, or put their text
      behind; and whether text was put before a blank last line. */
  datatype Marks = Marks(line: nat, beforeBlank: bool)

  const NO_MARKS := Marks(0, false)

  /** The guards of the two branches that leave the running line. An end-of-file chunk is found behind all that was
      replaced; no text is put before a blank last line that is replaced, be it before that or behind. */
  predicate Guarded(lines: seq<string>, chunk: Chunk, r: Replacement, m: Marks) {
    if chunk.oldLines == [] then EndsBlank(lines) ==> m.line < |lines|
    else
      && (chunk.isEndOfFile && r.oldLen > 0 ==> m.line <= r.start)
      && (m.beforeBlank && r.End() == |lines| ==> |lines| - 1 <= r.start)
  }

  function MarksBehind(lines: seq<string>, chunk: Chunk, r: Replacement, m: Marks): Marks {
    if chunk.oldLines == [] then m.(beforeBlank := m.beforeBlank || EndsBlank(lines))
    else if r.oldLen == 0 && r.start == |lines| then m
    else m.(line := r.End())
  }

  predicate AllGuarded(lines: seq<string>, chunks: seq<Chunk>, lineIndex: nat, m: Marks)
    decreases |chunks|
  {
    chunks != [] && LocateChunk(lines, chunks[0], lineIndex).Ok? ==>
      var (r, next) := LocateChunk(lines, chunks[0], lineIndex).value;
      Guarded(lines, chunks[0], r, m) && AllGuarded(lines, chunks[1..], next, MarksBehind(lines, chunks[0], r, m))
  }

  lemma LocatedStep(lines: seq<string>, chunk: Chunk, lineIndex: nat)
    requires lineIndex <= |lines|
    ensures var step := LocateChunk(lines, chunk, lineIndex);
            step.Ok? ==>
              var r, next := step.value.0, step.value.1;
              && r.End() <= |lines| && lineIndex <= next <= |lines|
              && (chunk.oldLines != [] ==>
                    Covers(lines, chunk, r) && Found(lines, chunk, lineIndex, r) && next == r.End())
              && (chunk.oldLines == [] ==> r == Replacement(InsertionIndex(lines), 0, chunk.newLines))
  {
    hide Covers, FindOldLines, Seek;
    SearchFromRange(lines, chunk, lineIndex);
    var from := SearchFrom(lines, chunk, lineIndex);
    if from.Ok? {
      FoundCovers(lines, chunk, from.value);
    }
  }

  /** Every chunk gets one replacement, within the file; chunks with old lines get one that covers matching lines. */
  lemma {:induction false} LocatedCovers(lines: seq<string>, chunks: seq<Chunk>, lineIndex: nat)
    requires lineIndex <= |lines|
    ensures var rs := Locate(lines, chunks, lineIndex);
            rs.Ok? ==>
              && |rs.value| == |chunks|
              && forall k :: 0 <= k < |chunks| ==>
                   && rs.value[k].End() <= |lines|
                   && (chunks[k].oldLines != [] ==> Covers(lines, chunks[k], rs.value[k]))
                   && (chunks[k].oldLines == [] ==>
                        rs.value[k] == Replacement(InsertionIndex(lines), 0, chunks[k].newLines))
    decreases |chunks|
  {
    hide Covers, LocateChunk, Found;
    if chunks != [] && Locate(lines, chunks, lineIndex).Ok? {
      LocatedStep(lines, chunks[0], lineIndex);
      LocatedCovers(lines, chunks[1..], LocateChunk(lines, chunks[0], lineIndex).value.1);
    }
  }

  /** What the marks say of the replacements located so far. */
  ghost predicate Marked(lines: seq<string>, done: seq<Replacement>, lineIndex: nat, m: Marks) {
    && m.line <= lineIndex <= |lines|
    && (m.beforeBlank ==> EndsBlank(lines) && exists p :: p in done && p.oldLen == 0 && p.start == |lines| - 1)
    && (m.line > 0 ==> exists p :: p in done && p.End() == m.line && (p.oldLen > 0 || p.start < |lines|))
    && forall p :: p in done ==> Accounted(lines, p, m)
  }

  predicate Accounted(lines: seq<string>, p: Replacement, m: Marks) {
    && p.End() <= |lines|
    && (|| p.End() <= m.line
        || (p.oldLen == 0 && p.start == |lines|)
        || (p.oldLen == 0 && p.start == |lines| - 1 && m.beforeBlank))
  }

  /** A chunk's guards are exactly what keeps its replacement clear of those before it. */
  lemma ClearIffGuarded(
    lines: seq<string>, chunk: Chunk, r: Replacement, lineIndex: nat, done: seq<Replacement>, m: Marks)
    requires Marked(lines, done, lineIndex, m)
    requires if chunk.oldLines == [] then r == Replacement(InsertionIndex(lines), 0, chunk.newLines)
             else Found(lines, chunk, lineIndex, r)
    ensures ClearOf(done, r) <==> Guarded(lines, chunk, r, m)
  {
    if ClearOf(done, r) {
      if m.line > 0 {
        var p :| p in done && p.End() == m.line && (p.oldLen > 0 || p.start < |lines|);
        assert NoClash(p, r);
      }
      if m.beforeBlank {
        var p :| p in done && p.oldLen == 0 && p.start == |lines| - 1;
        assert NoClash(p, r);
      }
    }
    if Guarded(lines, chunk, r, m) {
      forall p | p in done ensures NoClash(p, r) {
        assert Accounted(lines, p, m);
      }
    }
  }

  lemma MarkedBehind(
    lines: seq<string>, chunk: Chunk, r: Replacement, lineIndex: nat, next: nat, done: seq<Replacement>, m: Marks)
    requires Marked(lines, done, lineIndex, m) && lineIndex <= next <= |lines|
    requires if chunk.oldLines == [] then r == Replacement(InsertionIndex(lines), 0, chunk.newLines)
             else Found(lines, chunk, lineIndex, r) && next == r.End()
    ensures Marked(lines, done + [r], next, MarksBehind(lines, chunk, r, m))
  {
    var all, after := done + [r], MarksBehind(lines, chunk, r, m);
    assert r in all;
    forall p | p in all ensures Accounted(lines, p, after) {
      assert p in done ==> Accounted(lines, p, m);
    }
    if after.line > 0 && after.line == m.line {
      var p :| p in done && p.End() == m.line && (p.oldLen > 0 || p.start < |lines|);
      assert p in all;
    }
    if m.beforeBlank {
      var p :| p in done && p.oldLen == 0 && p.start == |lines| - 1;
      assert p in all;
    }
  }

  /** For every chunk list that can be located: no two of its replacements clash exactly when all guards hold. */
  lemma {:induction false} GuardsIffNoClashes(
    lines: seq<string>, chunks: seq<Chunk>, lineIndex: nat, done: seq<Replacement>, m: Marks)
    requires Marked(lines, done, lineIndex, m) && Locate(lines, chunks, lineIndex).Ok?
    ensures NoClashes(done + Locate(lines, chunks, lineIndex).value)
       <==> NoClashes(done) && AllGuarded(lines, chunks, lineIndex, m)
    decreases |chunks|
  {
    hide Marked, Covers, Found, LocateChunk, NoClashes, Guarded, MarksBehind;
    if chunks == [] {
      assert done + [] == done;
    } else {
      var (r, next) := LocateChunk(lines, chunks[0], lineIndex).value;
      assert lineIndex <= |lines| by { MarkedRange(lines, done, lineIndex, m); }
      LocatedStep(lines, chunks[0], lineIndex);
      ClearIffGuarded(lines, chunks[0], r, lineIndex, done, m);
      ClashesPush(done, r);
      MarkedBehind(lines, chunks[0], r, lineIndex, next, done, m);
      GuardsIffNoClashes(lines, chunks[1..], next, done + [r], MarksBehind(lines, chunks[0], r, m));
      var rest := Locate(lines, chunks[1..], next).value;
      assert done + ([r] + rest) == done + [r] + rest;
    }
  }

  lemma MarkedRange(lines: seq<string>, done: seq<Replacement>, lineIndex: nat, m: Marks)
    requires Marked(lines, done, lineIndex, m)
    ensures lineIndex <= |lines|
  {}

  lemma {:induction false} PlainIsOrdered(lines: seq<string>, chunks: seq<Chunk>, lineIndex: nat)
    requires lineIndex <= |lines|
    requires forall c :: c in chunks ==> c.oldLines != [] && !c.isEndOfFile
    ensures var rs := Locate(lines, chunks, lineIndex); rs.Ok? ==> Ordered(rs.value, lineIndex, |lines|)
    decreases |chunks|
  {
    hide Covers, LocateChunk;
    if chunks != [] && LocateChunk(lines, chunks[0], lineIndex).Ok? {
      LocatedStep(lines, chunks[0], lineIndex);
      PlainIsOrdered(lines, chunks[1..], LocateChunk(lines, chunks[0], lineIndex).value.1);
    }
  }

  /** Chunks with old lines and without an end-of-file mark either fail or are located in order: sorting changes
      nothing, and the in-place edit is the single pass. */
  lemma PlainChunksMeaning(lines: seq<string>, chunks: seq<Chunk>)
    requires forall c :: c in chunks ==> c.oldLines != [] && !c.isEndOfFile
    ensures var rs := Replacements(lines, chunks);
            rs.Ok? ==>
              && rs == Locate(lines, chunks, 0)
              && Ordered(rs.value, 0, |lines|)
              && BackToFront(lines, rs.value) == OnePass(lines, rs.value, 0)
  {
    hide LocateChunk, BackToFront, OnePass, SortByStart;
    var rs := Locate(lines, chunks, 0);
    if rs.Ok? {
      PlainIsOrdered(lines, chunks, 0);
      OrderedIsDisjoint(rs.value, 0, |lines|);
      forall i, j | 0 <= i < j < |rs.value| ensures rs.value[i].start <= rs.value[j].start {
        assert rs.value[i].End() <= rs.value[j].start;
      }
      SortKeepsSorted(rs.value);
      InPlaceEditMeaning(lines, rs.value);
    }
  }

  lemma WithinByMembers(a: seq<Replacement>, b: seq<Replacement>, n: nat)
    requires (forall r :: r in a <==> r in b) && Within(b, 0, n)
    ensures Within(a, 0, n)
  {
    forall i | 0 <= i < |a| ensures a[i].End() <= n {
      assert a[i] in b;
    }
  }

  /** For every chunk list, guards or no guards: the replacements are in bounds, and they are in order and disjoint
      exactly when no two chunks were located on overlapping lines. */
  lemma OrderedIffNoClash(lines: seq<string>, chunks: seq<Chunk>)
    ensures var located := Locate(lines, chunks, 0);
            located.Ok? ==>
              && Sorted(Replacements(lines, chunks).value)
              && Within(Replacements(lines, chunks).value, 0, |lines|)
              && (Ordered(Replacements(lines, chunks).value, 0, |lines|) <==> NoClashes(located.value))
  {
    hide Covers, LocateChunk, SortByStart, NoClashes, Ordered, Locate;
    var located := Locate(lines, chunks, 0);
    if located.Ok? {
      LocatedCovers(lines, chunks, 0);
      SortSorts(located.value);
      SameMembers(SortByStart(located.value), located.value);
      WithinByMembers(SortByStart(located.value), located.value, |lines|);
      SortedIsOrderedIff(located.value, |lines|);
    }
  }

  /** For every chunk list: the located replacements are in order and disjoint exactly when the guards hold, and then
      the in-place edit is the single pass. */
  lemma GuardedChunksMeaning(lines: seq<string>, chunks: seq<Chunk>)
    ensures var rs := Replacements(lines, chunks);
            rs.Ok? ==>
              && (Ordered(rs.value, 0, |lines|) <==> AllGuarded(lines, chunks, 0, NO_MARKS))
              && (AllGuarded(lines, chunks, 0, NO_MARKS) ==>
                   BackToFront(lines, rs.value) == OnePass(lines, rs.value, 0))
  {
    hide LocateChunk, BackToFront, OnePass, SortByStart, Locate, Ordered, AllGuarded, NoClashes;
    var located := Locate(lines, chunks, 0);
    if located.Ok? {
      OrderedIffNoClash(lines, chunks);
      GuardsIffNoClashes(lines, chunks, 0, [], NO_MARKS);
      assert [] + located.value == located.value;
      NothingClashes();
      if AllGuarded(lines, chunks, 0, NO_MARKS) {
        InPlaceEditMeaning(lines, SortByStart(located.value));
      }
    }
  }

  lemma NothingClashes()
    ensures NoClashes([])
  {}

  // ---------------------------------------------------------------- where the guards fail

  lemma FirstLineFound(lines: seq<string>, pattern: seq<string>, eof: bool)
    requires 0 < |pattern| <= |lines| && pattern == lines[..|pattern|]
    requires eof ==> |pattern| == |lines|
    ensures Seek(lines, pattern, 0, eof) == Some(0)
  {
    assert MatchAt(lines, pattern, 0, Exact);
  }

  lemma SortTwo(a: Replacement, b: Replacement)
    requires a.start <= b.start
    ensures SortByStart([a, b]) == [a, b]
  {
    SortKeepsSorted([a, b]);
  }

  lemma TwoSplices(lines: seq<string>, x: Replacement, y: Replacement)
    ensures BackToFront(lines, [x, y]) == Spliced(Spliced(lines, y), x)
  {
    hide Spliced;
    assert [x, y][1..] == [y] && [y][1..] == [];
    assert BackToFront(lines, [y]) == Spliced(BackToFront(lines, []), y);
  }

  lemma LocateTwo(lines: seq<string>, a: Chunk, b: Chunk)
    requires LocateChunk(lines, a, 0).Ok? && LocateChunk(lines, b, LocateChunk(lines, a, 0).value.1).Ok?
    ensures var first := LocateChunk(lines, a, 0).value;
            Locate(lines, [a, b], 0) == Ok([first.0, LocateChunk(lines, b, first.1).value.0])
  {
    hide LocateChunk;
    var first := LocateChunk(lines, a, 0).value;
    var second := LocateChunk(lines, b, first.1).value;
    assert [a, b][1..] == [b] && [b][1..] == [];
    LocateStep(lines, [a, b], 0, []);
    LocateStep(lines, [b], first.1, [] + [first.0]);
    PrependNothing(Locate(lines, [a, b], 0));
    assert [] + [first.0] + [second.0] + [] == [first.0, second.0];
  }

  /** An end-of-file chunk searches at the end whatever was located before: on a one-line file two chunks can
      cover the same line, and the text of the second is lost. */
  lemma EofChunkCanRewind(a: string, b: string, c: string)
    ensures var rs := Replacements([a], [Chunk(None, [a], [b], false), Chunk(None, [a], [c], true)]);
            && rs == Ok([Replacement(0, 1, [b]), Replacement(0, 1, [c])])
            && BackToFront([a], rs.value) == [b]
  {
    var x, y := Replacement(0, 1, [b]), Replacement(0, 1, [c]);
    FirstLineFound([a], [a], false);
    EofFound(a);
    LocateTwo([a], Chunk(None, [a], [b], false), Chunk(None, [a], [c], true));
    SortTwo(x, y);
    assert [x, y][1..] == [y] && [y][1..] == [];
    assert Spliced([a], y) == [c] && Spliced([c], x) == [b];
    TwoSplices([a], x, y);
  }

  lemma EofFound(a: string)
    ensures Seek([a], [a], 1, true) == Some(0)
  {
    assert MatchAt([a], [a], 0, Exact);
  }

  /** A chunk without old lines goes before a blank last line: when another chunk covers that line, the inserted
      text is deleted with it. */
  lemma InsertBeforeBlankCanBeLost(a: string, b: string, c: string)
    ensures var rs := Replacements([a, ""], [Chunk(None, [a, ""], [b, ""], false), Chunk(None, [], [c], false)]);
            && rs == Ok([Replacement(0, 2, [b, ""]), Replacement(1, 0, [c])])
            && BackToFront([a, ""], rs.value) == [b, "", ""]
  {
    var x, y := Replacement(0, 2, [b, ""]), Replacement(1, 0, [c]);
    FirstLineFound([a, ""], [a, ""], false);
    LocateTwo([a, ""], Chunk(None, [a, ""], [b, ""], false), Chunk(None, [], [c], false));
    SortTwo(x, y);
    assert [x, y][1..] == [y] && [y][1..] == [];
    assert Spliced([a, ""], y) == [a, c, ""];
    assert Spliced([a, c, ""], x) == [b, "", ""];
    TwoSplices([a, ""], x, y);
  }

  // ---------------------------------------------------------------- the whole file

  function FileLines(text: string): seq<string> {
    DropBlankEnd(SplitOn(text, '\n'))
  }

  function FileText(lines: seq<string>): string {
    Join(if lines == [] || lines[|lines| - 1] != "" then lines + [""] else lines, "\n")
  }

  method ApplyUpdateHunk(originalContents: string, chunks: seq<Chunk>) returns (r: Result<string, UpdateError>)
    ensures var lines := FileLines(originalContents);
            match Replacements(lines, chunks)
            case Err(e) => r == Err(e)
            case Ok(rs) => r == Ok(FileText(BackToFront(lines, rs)))
                           && (AllGuarded(lines, chunks, 0, NO_MARKS) ==>
                                 Ordered(rs, 0, |lines|) && r == Ok(FileText(OnePass(lines, rs, 0))))
  {
    hide SplitOn, BackToFront, AllGuarded, Replacements, OnePass, Ordered, Join;
    var originalLines := SplitOn(originalContents, '\n');
    if |originalLines| > 0 && originalLines[|originalLines| - 1] == "" {
      originalLines := originalLines[..|originalLines| - 1];
    }
    var replacements := ComputeReplacements(originalLines, chunks);
    if replacements.Err? {
      return Err(replacements.error);
    }
    var newLines := ApplyReplacements(originalLines, replacements.value);
    if newLines == [] || newLines[|newLines| - 1] != "" {
      newLines := newLines + [""];
    }
    GuardedChunksMeaning(originalLines, chunks);
    return Ok(Join(newLines, "\n"));
  }

  /** Only a text that is empty or ends in a line feed leaves a blank last part. */
  lemma {:induction false} LastPart(s: string)
    ensures var parts := SplitOn(s, '\n');
            parts[|parts| - 1] == "" <==> s == "" || s[|s| - 1] == '\n'
  {
    if s != "" {
      LastPart(s[1..]);
    }
  }

  lemma SplitWithEnd(s: string)
    ensures SplitOn(s + "\n", '\n') == SplitOn(s, '\n') + [""]
  {
    hide SplitOn;
    var parts := SplitOn(s, '\n');
    JoinOfSplit(s, '\n');
    JoinOfAppend(parts, [""], "\n");
    assert Join([""], "\n") == "" && s + "\n" + "" == s + "\n";
    SplitOfJoin(parts + [""], '\n');
  }

  /** A file whose lines an update leaves alone keeps its text exactly when it is empty or ends in one line feed
      behind a line that is not blank. */
  lemma UnchangedLinesKeepTextIff(text: string)
    ensures FileText(FileLines(text)) == text <==>
              text == "" || (|text| >= 2 && text[|text| - 1] == '\n' && text[|text| - 2] != '\n')
  {
    hide SplitOn, Join, FileText;
    var parts := SplitOn(text, '\n');
    LastPart(text);
    JoinOfSplit(text, '\n');
    if text == "" {
      SplitOfPlain("", '\n');
      assert [""][..0] == [];
      TextOfLines([]);
      JoinOfFew("");
    } else if text[|text| - 1] != '\n' {
      TextOfLines(parts);
    } else {
      var s := text[..|text| - 1];
      var inner := SplitOn(s, '\n');
      assert text == s + "\n";
      SplitWithEnd(s);
      LastPart(s);
      JoinOfSplit(s, '\n');
      assert (inner + [""])[..|inner|] == inner;
      TextOfLines(inner);
    }
  }

  lemma TextOfLines(lines: seq<string>)
    ensures FileText(lines) == if lines == [] || EndsBlank(lines) then Join(lines, "\n") else Join(lines, "\n") + "\n"
  {
    if lines != [] && !EndsBlank(lines) {
      hide Join;
      JoinOfAppend(lines, [""], "\n");
      assert Join([""], "\n") == "" by { JoinOfFew(""); }
    }
  }

  lemma JoinOfFew(line: string)
    ensures Join([], "\n") == "" && Join([line], "\n") == line
  {}
}
