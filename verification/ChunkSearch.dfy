/** What locating chunks means, in terms of matching lines alone: the reference for the searches of
    src/agents/apply-patch-update.ts. */
module ChunkSearch {
  import opened Text
  import opened PatchUpdate

  // ---------------------------------------------------------------- one pattern

  /** No line at or behind lo begins a match, however loose. */
  ghost predicate Missing(lines: seq<string>, pattern: seq<string>, lo: nat) {
    forall j: nat :: j >= lo ==> !MatchAt(lines, pattern, j, Punctuation)
  }

  /** The first match at or behind lo in tier t, and no stricter tier has one. */
  ghost predicate BestIn(lines: seq<string>, pattern: seq<string>, lo: nat, i: nat, t: Tier) {
    && i >= lo && MatchAt(lines, pattern, i, t)
    && (forall j: nat :: lo <= j < i ==> !MatchAt(lines, pattern, j, t))
    && (forall j: nat, s: Tier :: j >= lo && s.Rank() < t.Rank() ==> !MatchAt(lines, pattern, j, s))
  }

  ghost predicate Best(lines: seq<string>, pattern: seq<string>, lo: nat, i: nat) {
    exists t :: BestIn(lines, pattern, lo, i, t)
  }

  lemma BestIsUnique(lines: seq<string>, pattern: seq<string>, lo: nat, i: nat, j: nat)
    requires Best(lines, pattern, lo, i) && Best(lines, pattern, lo, j)
    ensures i == j
  {
    hide MatchAt;
    var t :| BestIn(lines, pattern, lo, i, t);
    var u :| BestIn(lines, pattern, lo, j, u);
    assert t.Rank() == u.Rank();
  }

  lemma BestIsThere(lines: seq<string>, pattern: seq<string>, lo: nat, i: nat)
    requires Best(lines, pattern, lo, i)
    ensures i >= lo && MatchAt(lines, pattern, i, Punctuation) && !Missing(lines, pattern, lo)
  {
    hide MatchAt;
    var t :| BestIn(lines, pattern, lo, i, t);
    LooserMatches(lines, pattern, i, t, Punctuation);
  }

  /** Where a pattern is found: the empty one where the search begins, at the end of the file one that ends there,
      otherwise the best match at or behind the line searched from. */
  ghost predicate FoundAt(lines: seq<string>, pattern: seq<string>, from: nat, eof: bool, i: nat) {
    if pattern == [] then i == from
    else if eof then i + |pattern| == |lines| && MatchAt(lines, pattern, i, Punctuation)
    else Best(lines, pattern, from, i)
  }

  ghost predicate NotFound(lines: seq<string>, pattern: seq<string>, from: nat, eof: bool) {
    && pattern != []
    && if eof then forall i: nat :: i + |pattern| == |lines| ==> !MatchAt(lines, pattern, i, Punctuation)
       else Missing(lines, pattern, from)
  }

  lemma NoMatchPastEnd(lines: seq<string>, pattern: seq<string>, t: Tier)
    ensures forall j: nat :: MatchAt(lines, pattern, j, t) ==> j + |pattern| <= |lines|
  {}

  /** Away from the end of the file. */
  lemma SeekForwardIff(lines: seq<string>, pattern: seq<string>, from: nat)
    requires pattern != []
    ensures forall i: nat :: Seek(lines, pattern, from, false) == Some(i) <==> Best(lines, pattern, from, i)
    ensures Seek(lines, pattern, from, false) == None <==> Missing(lines, pattern, from)
  {
    hide MatchAt, Seek, Missing, Best;
    var r := Seek(lines, pattern, from, false);
    SeekIsBest(lines, pattern, from);
    forall i: nat | Best(lines, pattern, from, i) ensures r == Some(i) {
      BestIsThere(lines, pattern, from, i);
      BestIsUnique(lines, pattern, from, i, r.value);
    }
    if r.Some? {
      BestIsThere(lines, pattern, from, r.value);
    }
  }

  lemma SeekIsBest(lines: seq<string>, pattern: seq<string>, from: nat)
    requires pattern != []
    ensures match Seek(lines, pattern, from, false)
            case None => Missing(lines, pattern, from)
            case Some(i) => Best(lines, pattern, from, i)
  {
    hide MatchAt, Seek;
    SeekMeaning(lines, pattern, from, false);
    var r := Seek(lines, pattern, from, false);
    if r.Some? {
      var t :| && MatchAt(lines, pattern, r.value, t)
               && (forall j: nat :: from <= j < r.value ==> !MatchAt(lines, pattern, j, t))
               && (forall j: nat, s: Tier :: j >= from && s.Rank() < t.Rank() ==> !MatchAt(lines, pattern, j, s));
      assert BestIn(lines, pattern, from, r.value, t);
    }
  }

  /** At the end of the file. */
  lemma SeekAtEndIff(lines: seq<string>, pattern: seq<string>, from: nat)
    requires pattern != []
    ensures forall i: nat :: Seek(lines, pattern, from, true) == Some(i) <==>
              i + |pattern| == |lines| && MatchAt(lines, pattern, i, Punctuation)
    ensures Seek(lines, pattern, from, true) == None <==>
              forall i: nat :: i + |pattern| == |lines| ==> !MatchAt(lines, pattern, i, Punctuation)
  {
    hide MatchAt, Seek;
    SeekMeaning(lines, pattern, from, true);
    EofMatchesAtEnd(lines, pattern, from);
    NoMatchPastEnd(lines, pattern, Punctuation);
  }

  /** A search finds exactly that. */
  lemma SeekIff(lines: seq<string>, pattern: seq<string>, from: nat, eof: bool)
    ensures forall i: nat :: Seek(lines, pattern, from, eof) == Some(i) <==> FoundAt(lines, pattern, from, eof, i)
    ensures Seek(lines, pattern, from, eof) == None <==> NotFound(lines, pattern, from, eof)
  {
    if pattern != [] {
      hide MatchAt, Seek, Best, Missing;
      if eof {
        SeekAtEndIff(lines, pattern, from);
      } else {
        SeekForwardIff(lines, pattern, from);
      }
    }
  }

  // ---------------------------------------------------------------- one chunk

  /** The line a chunk is searched from: the running one, or the line behind the best match of its context. */
  ghost predicate Behind(lines: seq<string>, chunk: Chunk, lineIndex: nat, from: nat) {
    var c := chunk.changeContext.GetOr("");
    if c == "" then from == lineIndex else from > 0 && Best(lines, [c], lineIndex, from - 1)
  }

  /** The chunk's lines, all or all but a blank last one, are found, and the new lines take their place. */
  ghost predicate Replaces(lines: seq<string>, chunk: Chunk, from: nat, r: Replacement) {
    var gone, n, eof := chunk.oldLines, |chunk.oldLines|, chunk.isEndOfFile;
    || (&& r.oldLen == n && r.newLines == chunk.newLines
        && FoundAt(lines, gone, from, eof, r.start))
    || (&& NotFound(lines, gone, from, eof)
        && r.oldLen + 1 == n && gone[n - 1] == ""
        && (chunk.newLines == r.newLines + [""] || (r.newLines == chunk.newLines && !EndsBlank(chunk.newLines)))
        && FoundAt(lines, gone[..n - 1], from, eof, r.start))
  }

  ghost predicate NothingReplaced(lines: seq<string>, chunk: Chunk, from: nat) {
    var gone, n, eof := chunk.oldLines, |chunk.oldLines|, chunk.isEndOfFile;
    && NotFound(lines, gone, from, eof)
    && (n > 0 && gone[n - 1] == "" ==> NotFound(lines, gone[..n - 1], from, eof))
  }

  /** The chunk gives the replacement r, and the running line goes from lineIndex to next. */
  ghost predicate Located(lines: seq<string>, chunk: Chunk, lineIndex: nat, r: Replacement, next: nat) {
    exists from: nat :: Behind(lines, chunk, lineIndex, from) &&
      if chunk.oldLines == [] then
        && next == from && r.oldLen == 0 && r.newLines == chunk.newLines
        && (if EndsBlank(lines) then r.start + 1 == |lines| else r.start == |lines|)
      else next == r.start + r.oldLen && Replaces(lines, chunk, from, r)
  }

  ghost predicate Fails(lines: seq<string>, chunk: Chunk, lineIndex: nat, e: UpdateError) {
    var c := chunk.changeContext.GetOr("");
    || (c != "" && Missing(lines, [c], lineIndex) && e == ContextNotFound(c))
    || (&& e == LinesNotFound(chunk.oldLines)
        && exists from: nat :: Behind(lines, chunk, lineIndex, from) && NothingReplaced(lines, chunk, from))
  }

  lemma SearchFromIff(lines: seq<string>, chunk: Chunk, lineIndex: nat)
    ensures var c, from := chunk.changeContext.GetOr(""), SearchFrom(lines, chunk, lineIndex);
            && (forall i: nat :: from == Ok(i) <==> Behind(lines, chunk, lineIndex, i))
            && (from.Err? ==> from.error == ContextNotFound(c))
            && (from.Err? <==> c != "" && Missing(lines, [c], lineIndex))
  {
    hide Seek, Best, Missing;
    var c := chunk.changeContext.GetOr("");
    if c != "" {
      SeekIff(lines, [c], lineIndex, false);
      var s := Seek(lines, [c], lineIndex, false);
      forall i: nat ensures SearchFrom(lines, chunk, lineIndex) == Ok(i) <==> Behind(lines, chunk, lineIndex, i) {
        if i > 0 {
          assert s == Some(i - 1) <==> FoundAt(lines, [c], lineIndex, false, i - 1);
        }
      }
    }
  }

  lemma DropBlankEndIff(lines: seq<string>, less: seq<string>)
    ensures less == DropBlankEnd(lines) <==> lines == less + [""] || (less == lines && !EndsBlank(lines))
  {
    if EndsBlank(lines) {
      assert lines == lines[..|lines| - 1] + [""];
    }
    assert (less + [""])[..|less|] == less;
  }

  lemma FindOldLinesIff(lines: seq<string>, chunk: Chunk, from: nat)
    requires chunk.oldLines != []
    ensures forall r :: FindOldLines(lines, chunk, from) == Some(r) <==> Replaces(lines, chunk, from, r)
    ensures FindOldLines(lines, chunk, from) == None <==> NothingReplaced(lines, chunk, from)
  {
    hide Seek, FoundAt, NotFound, DropBlankEnd;
    var gone, n, eof := chunk.oldLines, |chunk.oldLines|, chunk.isEndOfFile;
    SeekIff(lines, gone, from, eof);
    SeekIff(lines, gone[..n - 1], from, eof);
    forall r ensures FindOldLines(lines, chunk, from) == Some(r) <==> Replaces(lines, chunk, from, r) {
      DropBlankEndIff(chunk.newLines, r.newLines);
      assert Seek(lines, gone, from, eof) == Some(r.start) <==> FoundAt(lines, gone, from, eof, r.start);
      assert Seek(lines, gone[..n - 1], from, eof) == Some(r.start)
        <==> FoundAt(lines, gone[..n - 1], from, eof, r.start);
    }
  }

  /** For every chunk: what it is located as, and each of the two errors, in terms of matches. */
  lemma LocateChunkIff(lines: seq<string>, chunk: Chunk, lineIndex: nat)
    ensures forall r, next: nat ::
              LocateChunk(lines, chunk, lineIndex) == Ok((r, next)) <==> Located(lines, chunk, lineIndex, r, next)
    ensures forall e :: LocateChunk(lines, chunk, lineIndex) == Err(e) <==> Fails(lines, chunk, lineIndex, e)
  {
    hide SearchFrom, FindOldLines, Behind, Replaces, NothingReplaced, Missing;
    SearchFromIff(lines, chunk, lineIndex);
    var from := SearchFrom(lines, chunk, lineIndex);
    if from.Ok? {
      assert Behind(lines, chunk, lineIndex, from.value);
      if chunk.oldLines != [] {
        FindOldLinesIff(lines, chunk, from.value);
      } else {
        assert !NothingReplaced(lines, chunk, from.value) by { NothingToFind(lines, chunk, from.value); }
      }
    }
  }

  lemma NothingToFind(lines: seq<string>, chunk: Chunk, from: nat)
    requires chunk.oldLines == []
    ensures !NothingReplaced(lines, chunk, from)
  {}

  /** A context moves the search: what a chunk replaces begins behind the line its context was found on. */
  lemma ContextMovesSearch(lines: seq<string>, chunk: Chunk, lineIndex: nat, i: nat, r: Replacement, next: nat)
    requires chunk.changeContext.GetOr("") != "" && Best(lines, [chunk.changeContext.value], lineIndex, i)
    requires Located(lines, chunk, lineIndex, r, next)
    ensures chunk.oldLines == [] ==> next == i + 1
    ensures chunk.oldLines != [] && !chunk.isEndOfFile ==> r.start > i
  {
    hide Best, Missing, MatchAt;
    var from: nat :| Behind(lines, chunk, lineIndex, from) && (chunk.oldLines == [] ==> next == from)
                     && (chunk.oldLines != [] ==> Replaces(lines, chunk, from, r));
    BestIsUnique(lines, [chunk.changeContext.value], lineIndex, i, from - 1);
    if chunk.oldLines != [] && !chunk.isEndOfFile {
      var pattern := chunk.oldLines[..r.oldLen];
      assert chunk.oldLines[..|chunk.oldLines|] == chunk.oldLines;
      if pattern != [] {
        BestIsThere(lines, pattern, from, r.start);
      }
    }
  }

  // ---------------------------------------------------------------- all chunks

  /** The running line goes from lineIndex along `at`, and the chunks before |rs| are located as rs. */
  ghost predicate Chain(lines: seq<string>, chunks: seq<Chunk>, lineIndex: nat, rs: seq<Replacement>, at: seq<nat>) {
    && |rs| <= |chunks| && |at| == |rs| + 1 && at[0] == lineIndex
    && forall k :: 0 <= k < |rs| ==> Located(lines, chunks[k], at[k], rs[k], at[k + 1])
  }

  lemma ChainFirst(lines: seq<string>, chunks: seq<Chunk>, lineIndex: nat, rs: seq<Replacement>, at: seq<nat>)
    requires Chain(lines, chunks, lineIndex, rs, at) && rs != []
    ensures chunks != [] && Located(lines, chunks[0], lineIndex, rs[0], at[1])
    ensures Chain(lines, chunks[1..], at[1], rs[1..], at[1..])
  {
    hide Located;
    forall k | 0 <= k < |rs| - 1
      ensures Located(lines, chunks[1..][k], at[1..][k], rs[1..][k], at[1..][k + 1])
    {
      assert Located(lines, chunks[k + 1], at[k + 1], rs[k + 1], at[k + 2]);
    }
  }

  lemma ChainCons(
    lines: seq<string>, chunks: seq<Chunk>, lineIndex: nat, r: Replacement, next: nat, rs: seq<Replacement>,
    at: seq<nat>)
    requires chunks != [] && Located(lines, chunks[0], lineIndex, r, next) && Chain(lines, chunks[1..], next, rs, at)
    ensures Chain(lines, chunks, lineIndex, [r] + rs, [lineIndex] + at)
  {
    hide Located;
    forall k | 0 <= k < |rs| + 1
      ensures Located(lines, chunks[k], ([lineIndex] + at)[k], ([r] + rs)[k], ([lineIndex] + at)[k + 1])
    {
      assert k > 0 ==> Located(lines, chunks[1..][k - 1], at[k - 1], rs[k - 1], at[k]);
    }
  }

  /** All chunks are located as rs exactly when they are so one after the other. */
  lemma {:induction false} LocateIff(lines: seq<string>, chunks: seq<Chunk>, lineIndex: nat, rs: seq<Replacement>)
    ensures Locate(lines, chunks, lineIndex) == Ok(rs)
       <==> |rs| == |chunks| && exists at :: Chain(lines, chunks, lineIndex, rs, at)
    decreases |chunks|
  {
    hide LocateChunk, Located, Chain;
    if chunks == [] {
      if rs == [] {
        assert Chain(lines, chunks, lineIndex, rs, [lineIndex]) by { EmptyChain(lines, chunks, lineIndex); }
      }
    } else {
      LocateChunkIff(lines, chunks[0], lineIndex);
      var step := LocateChunk(lines, chunks[0], lineIndex);
      if Locate(lines, chunks, lineIndex) == Ok(rs) {
        var (r, next) := step.value;
        assert rs == [r] + rs[1..];
        LocateIff(lines, chunks[1..], next, rs[1..]);
        var at :| Chain(lines, chunks[1..], next, rs[1..], at);
        ChainCons(lines, chunks, lineIndex, r, next, rs[1..], at);
      }
      if at :| |rs| == |chunks| && Chain(lines, chunks, lineIndex, rs, at) {
        ChainFirst(lines, chunks, lineIndex, rs, at);
        ChainLength(lines, chunks, lineIndex, rs, at);
        LocateIff(lines, chunks[1..], at[1], rs[1..]);
        assert rs == [rs[0]] + rs[1..];
      }
    }
  }

  lemma EmptyChain(lines: seq<string>, chunks: seq<Chunk>, lineIndex: nat)
    ensures Chain(lines, chunks, lineIndex, [], [lineIndex])
  {}

  lemma ChainLength(lines: seq<string>, chunks: seq<Chunk>, lineIndex: nat, rs: seq<Replacement>, at: seq<nat>)
    requires Chain(lines, chunks, lineIndex, rs, at)
    ensures |at| == |rs| + 1 && at[0] == lineIndex && |rs| <= |chunks|
  {}

  /** Locating fails with e exactly when some chunk does so behind chunks that are located. */
  lemma {:induction false} LocateFailsIff(lines: seq<string>, chunks: seq<Chunk>, lineIndex: nat, e: UpdateError)
    ensures Locate(lines, chunks, lineIndex) == Err(e)
       <==> exists rs, at :: Chain(lines, chunks, lineIndex, rs, at) && FailsBehind(lines, chunks, rs, at, e)
    decreases |chunks|
  {
    hide LocateChunk, Located, Chain, Fails;
    if chunks != [] {
      LocateChunkIff(lines, chunks[0], lineIndex);
      var step := LocateChunk(lines, chunks[0], lineIndex);
      if step.Err? {
        EmptyChain(lines, chunks, lineIndex);
        assert step.error == e ==> FailsBehind(lines, chunks, [], [lineIndex], e);
      } else {
        var (r, next) := step.value;
        LocateFailsIff(lines, chunks[1..], next, e);
        if Locate(lines, chunks, lineIndex) == Err(e) {
          var rs, at :| Chain(lines, chunks[1..], next, rs, at) && FailsBehind(lines, chunks[1..], rs, at, e);
          ChainCons(lines, chunks, lineIndex, r, next, rs, at);
          assert FailsBehind(lines, chunks, [r] + rs, [lineIndex] + at, e);
        }
      }
      forall rs, at | Chain(lines, chunks, lineIndex, rs, at) && FailsBehind(lines, chunks, rs, at, e)
        ensures Locate(lines, chunks, lineIndex) == Err(e)
      {
        ChainLength(lines, chunks, lineIndex, rs, at);
        if rs != [] {
          ChainFirst(lines, chunks, lineIndex, rs, at);
          assert FailsBehind(lines, chunks[1..], rs[1..], at[1..], e);
        }
      }
    }
  }

  ghost predicate FailsBehind(
    lines: seq<string>, chunks: seq<Chunk>, rs: seq<Replacement>, at: seq<nat>, e: UpdateError)
  {
    |rs| < |chunks| && |at| == |rs| + 1 && Fails(lines, chunks[|rs|], at[|rs|], e)
  }

  // ---------------------------------------------------------------- punctuation

  const DASHES := {'\U{2010}', '\U{2011}', '\U{2012}', '\U{2013}', '\U{2014}', '\U{2015}', '\U{2212}'}
  const SINGLE_QUOTES := {'\U{2018}', '\U{2019}', '\U{201A}', '\U{201B}'}
  const DOUBLE_QUOTES := {'\U{201C}', '\U{201D}', '\U{201E}', '\U{201F}'}
  const SPACES := {'\U{00A0}', '\U{2002}', '\U{2003}', '\U{2004}', '\U{2005}', '\U{2006}', '\U{2007}', '\U{2008}',
                   '\U{2009}', '\U{200A}', '\U{202F}', '\U{205F}', '\U{3000}'}

  lemma PlainCharOf(c: char)
    ensures PlainChar(c) == '-' <==> c in DASHES + {'-'}
    ensures PlainChar(c) == '\'' <==> c in SINGLE_QUOTES + {'\''}
    ensures PlainChar(c) == '"' <==> c in DOUBLE_QUOTES + {'"'}
    ensures PlainChar(c) == ' ' <==> c in SPACES + {' '}
    ensures c !in DASHES + SINGLE_QUOTES + DOUBLE_QUOTES + SPACES ==> PlainChar(c) == c
  {}

  /** Two characters are the same punctuation exactly when they are equal, or of one of the four families, whose
      plain members are - ' " and the blank. */
  lemma SamePunctuationIff(a: char, b: char)
    ensures PlainChar(a) == PlainChar(b) <==>
              || a == b
              || (a in DASHES + {'-'} && b in DASHES + {'-'})
              || (a in SINGLE_QUOTES + {'\''} && b in SINGLE_QUOTES + {'\''})
              || (a in DOUBLE_QUOTES + {'"'} && b in DOUBLE_QUOTES + {'"'})
              || (a in SPACES + {' '} && b in SPACES + {' '})
  {
    hide PlainChar;
    PlainCharOf(a);
    PlainCharOf(b);
  }
}
