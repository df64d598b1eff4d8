/** Event-stream frames with all kinds of lines, and what the body parser makes of them. */
module SseFrames {
  import opened Text
  import opened SseBody

  /** A line of a frame: data, with white space behind the colon, or any other (event, id, comment and the like). */
  datatype WireLine = DataLine(pad: string, text: string) | OtherLine(text: string) {
    function Line(): string {
      match this
      case DataLine(pad, text) => "data:" + pad + text
      case OtherLine(text) => text
    }

    predicate Proper() {
      && '\n' !in Line() && '\r' !in Line()
      && match this
         case DataLine(pad, text) => Blank(pad) && (text != "" ==> !IsSpace(text[0]))
         case OtherLine(text) => text != "" && !("data:" <= text)
    }
  }

  type Frame = seq<WireLine>

  predicate ProperFrame(f: Frame) {
    forall k :: 0 <= k < |f| ==> f[k].Proper()
  }

  function Lines(f: Frame): (r: seq<string>)
    ensures |r| == |f|
  {
    if f == [] then [] else [f[0].Line()] + Lines(f[1..])
  }

  /** The texts of the data lines. */
  function Texts(f: Frame): seq<string> {
    if f == [] then [] else (if f[0].DataLine? then [f[0].text] else []) + Texts(f[1..])
  }

  /** What a frame is worth: its data, unless that is empty or the end mark. */
  function Yield(f: Frame): seq<string> {
    var data := Join(Texts(f), "\n");
    if data == "" || data == "[DONE]" then [] else [data]
  }

  function Yields(frames: seq<Frame>): seq<string> {
    if frames == [] then [] else Yield(frames[0]) + Yields(frames[1..])
  }

  /** The frames on the wire, a blank line behind each. */
  function Stream(frames: seq<Frame>, eol: string): string {
    if frames == [] then "" else Join(Lines(frames[0]), eol) + eol + eol + Stream(frames[1..], eol)
  }

  // ---------------------------------------------------------------- one frame

  lemma {:induction false} TrimStartOfPadded(pad: string, text: string)
    requires Blank(pad) && (text != "" ==> !IsSpace(text[0]))
    ensures TrimStart(pad + text) == text
  {
    hide IsSpace;
    if pad == "" {
      assert pad + text == text;
    } else {
      assert (pad + text)[1..] == pad[1..] + text;
      TrimStartOfPadded(pad[1..], text);
    }
  }

  lemma DataLineText(l: WireLine)
    requires l.Proper() && l.DataLine?
    ensures DataLines([l.Line()]) == [l.text]
  {
    hide IsSpace, TrimStart;
    assert l.Line()[5..] == l.pad + l.text;
    TrimStartOfPadded(l.pad, l.text);
    assert DataLines([l.Line()]) == [TrimStart(l.Line()[5..])] + DataLines([]);
  }

  lemma {:induction false} DataLinesAppend(a: seq<string>, b: seq<string>)
    ensures DataLines(a + b) == DataLines(a) + DataLines(b)
  {
    hide TrimStart;
    if a == [] {
      assert a + b == b;
    } else {
      assert (a + b)[0] == a[0] && (a + b)[1..] == a[1..] + b;
      DataLinesAppend(a[1..], b);
    }
  }

  lemma OtherLineHasNoData(l: string)
    requires !("data:" <= l)
    ensures DataLines([l]) == []
  {}

  lemma {:induction false} DataLinesAreTexts(f: Frame)
    requires ProperFrame(f)
    ensures DataLines(Lines(f)) == Texts(f)
  {
    hide DataLines, WireLine.Line, WireLine.Proper;
    if f == [] {
      NoDataInNothing();
    } else {
      var l := f[0].Line();
      assert f[0].Proper();
      DataLinesAreTexts(f[1..]);
      DataLinesAppend([l], Lines(f[1..]));
      LineData(f[0]);
    }
  }

  lemma NoDataInNothing()
    ensures DataLines([]) == []
  {}

  lemma LineData(l: WireLine)
    requires l.Proper()
    ensures DataLines([l.Line()]) == if l.DataLine? then [l.text] else []
  {
    if l.DataLine? {
      DataLineText(l);
    } else {
      OtherLineHasNoData(l.Line());
    }
  }

  lemma {:induction false} LinesAreProper(f: Frame)
    requires ProperFrame(f)
    ensures forall l :: l in Lines(f) ==> '\n' !in l && '\r' !in l && l != "" && l[0] != '\n'
  {
    if f != [] {
      LinesAreProper(f[1..]);
      assert f[0].Proper();
    }
  }

  /** The payload of a frame is what its data lines carry. */
  lemma PayloadIsYield(f: Frame)
    requires ProperFrame(f)
    ensures Payload(Join(Lines(f), "\n")) == Yield(f)
  {
    hide DataLines, SplitOn, Lines, Texts;
    DataLinesAreTexts(f);
    if f == [] {
      SplitOfPlain("", '\n');
      OtherLineHasNoData("");
      assert Lines(f) == [] && Texts(f) == [] by { NothingInNothing(); }
    } else {
      LinesAreProper(f);
      SplitOfJoin(Lines(f), '\n');
    }
  }

  lemma NothingInNothing()
    ensures Lines([]) == [] && Texts([]) == []
  {}

  /** A line that does not begin with `data:` makes no difference, wherever it is put. */
  lemma OtherLineIgnored(a: seq<string>, l: string, b: seq<string>)
    requires !("data:" <= l) && forall k :: k in a + [l] + b ==> '\n' !in k
    ensures Payload(Join(a + [l] + b, "\n")) == Payload(Join(a + b, "\n"))
  {
    hide DataLines, SplitOn, Join;
    SplitOfJoin(a + [l] + b, '\n');
    DataLinesAppend(a + [l], b);
    DataLinesAppend(a, [l]);
    DataLinesAppend(a, b);
    OtherLineHasNoData(l);
    assert DataLines(a) + [] == DataLines(a);
    if a + b == [] {
      assert Join(a + b, "\n") == "" by { JoinOfNothing(); }
      SplitOfPlain("", '\n');
      OtherLineHasNoData("");
      NoDataInNothing();
    } else {
      forall k | 0 <= k < |a + b| ensures '\n' !in (a + b)[k] {
        assert (a + b)[k] == (a + [l] + b)[if k < |a| then k else k + 1];
      }
      SplitOfJoin(a + b, '\n');
    }
  }

  lemma JoinOfNothing()
    ensures Join([], "\n") == ""
  {}

  /** The end mark yields nothing, with other lines around it and white space before it. */
  lemma DoneYieldsNothing(f: Frame)
    requires ProperFrame(f) && Texts(f) == ["[DONE]"]
    ensures Payload(Join(Lines(f), "\n")) == []
  {
    PayloadIsYield(f);
  }

  // ---------------------------------------------------------------- many frames

  /** The frames' texts with line feeds. */
  function FrameTexts(frames: seq<Frame>): seq<string> {
    if frames == [] then [] else [Join(Lines(frames[0]), "\n")] + FrameTexts(frames[1..])
  }

  predicate ProperFrames(frames: seq<Frame>) {
    forall k :: 0 <= k < |frames| ==> frames[k] != [] && ProperFrame(frames[k])
  }

  lemma FirstOfStream(f: Frame, z: string)
    requires f != [] && ProperFrame(f)
    ensures Frames(Join(Lines(f), "\n") + "\n" + "\n" + z)
         == ([Join(Lines(f), "\n")] + Frames(z).0, Frames(z).1)
  {
    hide BlankLine, Frames;
    var j := Join(Lines(f), "\n");
    var u := j + "\n\n" + z;
    assert u == j + "\n" + "\n" + z;
    LinesAreProper(f);
    FrameCloses(Lines(f), z);
    FrameAndRest(u, |j|);
    assert u[..|j|] == j && u[|j| + 2..] == z;
  }

  lemma {:induction false} FramesOfStream(frames: seq<Frame>, tail: string)
    requires ProperFrames(frames) && BlankLine(tail) < 0
    ensures Frames(Stream(frames, "\n") + tail) == (FrameTexts(frames), tail)
  {
    hide BlankLine, Frames, ProperFrame;
    if frames == [] {
      assert Stream(frames, "\n") + tail == tail;
      LastFrame(tail);
    } else {
      var j, rest := Join(Lines(frames[0]), "\n"), Stream(frames[1..], "\n") + tail;
      FramesOfStream(frames[1..], tail);
      FirstOfStream(frames[0], rest);
      assert Stream(frames, "\n") + tail == j + "\n" + "\n" + rest;
    }
  }

  lemma {:induction false} NoBlankInside(lines: seq<string>)
    requires forall l :: l in lines ==> '\n' !in l && l != "" && l[0] != '\n'
    ensures BlankLine(Join(lines, "\n")) < 0
  {
    hide BlankLine;
    var j := Join(lines, "\n");
    BlankLineFirst(j);
    if |lines| == 1 {
      assert j == lines[0] && lines[0] in lines;
    } else if |lines| > 1 {
      var first, rest := lines[0], Join(lines[1..], "\n");
      assert first in lines && lines[1] in lines && forall l :: l in lines[1..] ==> l in lines;
      NoBlankInside(lines[1..]);
      BlankLineFirst(rest);
      assert rest[0] == lines[1][0];
      assert j == first + "\n" + rest;
      forall k | 0 <= k < |j| - 1 ensures !BlankAt(j, k) {
        if k < |first| {
          assert j[k] == first[k];
        } else if k == |first| {
          assert j[k + 1] == rest[0];
        } else {
          assert !BlankAt(rest, k - |first| - 1);
          assert j[k] == rest[k - |first| - 1] && j[k + 1] == rest[k - |first|];
        }
      }
    }
  }

  lemma {:induction false} PayloadsAreYields(frames: seq<Frame>)
    requires ProperFrames(frames)
    ensures FramePayloads(FrameTexts(frames)) == Yields(frames)
  {
    hide Payload, ProperFrame, Yield, Lines;
    if frames != [] {
      PayloadIsYield(frames[0]);
      PayloadsAreYields(frames[1..]);
      assert FrameTexts(frames)[1..] == FrameTexts(frames[1..]);
    }
  }

  // ---------------------------------------------------------------- line ends

  lemma LfOfFrame(f: Frame, eol: string, z: string)
    requires IsLineEnd(eol) && ProperFrame(f)
    ensures Lf(Join(Lines(f), eol) + eol + eol + z) == Join(Lines(f), "\n") + "\n" + "\n" + Lf(z)
  {
    hide Lf, IsLineEnd, Join, Lines;
    var j := Join(Lines(f), eol);
    LinesAreProper(f);
    LfOfEol(eol, z);
    LfOfEol(eol, eol + z);
    LfOfJoin(Lines(f), eol, eol + (eol + z));
    Grouped(j, eol, eol, z);
    Grouped(Join(Lines(f), "\n"), "\n", "\n", Lf(z));
  }

  lemma Grouped(a: string, b: string, c: string, d: string)
    ensures a + b + c + d == a + (b + (c + d))
  {}

  lemma {:induction false} LfOfStream(frames: seq<Frame>, last: Frame, eol: string)
    requires IsLineEnd(eol) && ProperFrames(frames) && ProperFrame(last)
    ensures Lf(Stream(frames, eol) + Join(Lines(last), eol)) == Stream(frames, "\n") + Join(Lines(last), "\n")
    ensures '\r' !in Stream(frames, "\n") + Join(Lines(last), "\n")
  {
    hide Lf, IsLineEnd, ProperFrame, Lines, Join;
    if frames == [] {
      assert Stream(frames, eol) == Stream(frames, "\n") == "";
      LinesHaveNoCr(last);
      LfOfJoin(Lines(last), eol, "");
      EmptyText();
      LfHead("");
      assert Join(Lines(last), eol) + "" == "" + Join(Lines(last), eol);
      assert Join(Lines(last), "\n") + "" == "" + Join(Lines(last), "\n");
      NoCrInJoin(Lines(last));
    } else {
      var z := Stream(frames[1..], eol) + Join(Lines(last), eol);
      LfOfStream(frames[1..], last, eol);
      LfOfFrame(frames[0], eol, z);
      LinesHaveNoCr(frames[0]);
      NoCrInJoin(Lines(frames[0]));
      StreamSteps(frames, eol, Join(Lines(last), eol));
      StreamSteps(frames, "\n", Join(Lines(last), "\n"));
    }
  }

  lemma StreamSteps(frames: seq<Frame>, eol: string, tail: string)
    requires frames != []
    ensures Stream(frames, eol) + tail
         == Join(Lines(frames[0]), eol) + eol + eol + (Stream(frames[1..], eol) + tail)
  {
    hide Join, Lines;
  }

  lemma LinesHaveNoCr(f: Frame)
    requires ProperFrame(f)
    ensures forall l :: l in Lines(f) ==> '\r' !in l
  {
    LinesAreProper(f);
  }

  // ---------------------------------------------------------------- the body

  /** A last frame that no blank line closes: no white space at either end, which would be trimmed. */
  predicate OpenFrame(f: Frame) {
    ProperFrame(f) && var j := Join(Lines(f), "\n"); j != "" ==> !IsSpace(j[0]) && !IsSpace(j[|j| - 1])
  }

  lemma TailIsYield(last: Frame)
    requires OpenFrame(last)
    ensures TailPayload(Join(Lines(last), "\n")) == Yield(last)
  {
    hide IsSpace, Payload, Lines, Trim;
    TrimFixed(Join(Lines(last), "\n"));
    PayloadIsYield(last);
    if Join(Lines(last), "\n") == "" {
      assert Payload("") == [] by { EmptyPayload(); }
    }
  }

  lemma EmptyPayload()
    ensures Payload("") == []
  {
    SplitOfPlain("", '\n');
    OtherLineHasNoData("");
  }

  /** For every stream of frames with lines of any kind, with LF or CR LF line ends and cut anywhere, closed by a blank
      line or not at the end: the payloads read are what the frames' data lines carry, in order. */
  lemma StreamIsRead(frames: seq<Frame>, last: Frame, eol: string, chunks: seq<string>)
    requires IsLineEnd(eol) && ProperFrames(frames) && OpenFrame(last)
    requires Flatten(chunks) == Stream(frames, eol) + Join(Lines(last), eol)
    ensures FramePayloads(Buffered(chunks).0) + TailPayload(Lf(Buffered(chunks).1)) == Yields(frames) + Yield(last)
  {
    hide Payload, Frames, BlankLine, Buffered, Lines, Stream, Lf, ProperFrames, Yield, Yields, IsSpace, TailPayload;
    var t, tail := Flatten(chunks), Join(Lines(last), "\n");
    var x := Stream(frames, "\n") + tail;
    LfOfStream(frames, last, eol);
    assert NoCrLf(x);
    LfFinal(t);
    ChunkIndependent(chunks);
    LinesAreProper(last);
    NoBlankInside(Lines(last));
    FramesOfStream(frames, tail);
    PayloadsAreYields(frames);
    TailIsYield(last);
  }
}
