/** The event-stream body parser of src/agents/anthropic-transport-stream.ts. A body is the sequence of the
    decoded texts that its reads return; a payload is the text that the source hands to JSON.parse. */
module SseBody {
  import opened Text

  /** `indexOf("\n\n")` */
  function BlankLine(s: string): (r: int)
    ensures r >= 0 ==> r + 2 <= |s|
  {
    if |s| < 2 then -1
    else if s[0] == s[1] == '\n' then 0
    else
      var r := BlankLine(s[1..]);
      if r < 0 then -1 else r + 1
  }

  predicate BlankAt(s: string, k: int) {
    0 <= k < |s| - 1 && s[k] == s[k + 1] == '\n'
  }

  lemma {:induction false} BlankLineOf(s: string, k: nat)
    requires BlankAt(s, k) && forall j :: 0 <= j < k ==> !BlankAt(s, j)
    ensures BlankLine(s) == k
  {
    if k > 0 {
      assert !BlankAt(s, 0);
      forall j | 0 <= j < k - 1 ensures !BlankAt(s[1..], j) {
        assert !BlankAt(s, j + 1);
      }
      BlankLineOf(s[1..], k - 1);
    }
  }

  lemma {:induction false} BlankLineFirst(s: string)
    ensures var r := BlankLine(s);
            if r < 0 then forall j :: !BlankAt(s, j) else BlankAt(s, r) && forall j :: 0 <= j < r ==> !BlankAt(s, j)
  {
    if |s| >= 2 && !BlankAt(s, 0) {
      var r := BlankLine(s);
      BlankLineFirst(s[1..]);
      forall j | 0 < j && (r < 0 || j < r) ensures !BlankAt(s, j) {
        assert !BlankAt(s[1..], j - 1);
      }
    }
  }

  /** The complete frames of a normalised text, and what follows the last of them. */
  function Frames(s: string): (r: (seq<string>, string))
    ensures |r.1| <= |s|
    decreases |s|
  {
    var k := BlankLine(s);
    if k < 0 then ([], s)
    else
      var r := Frames(s[k + 2..]);
      ([s[..k]] + r.0, r.1)
  }

  function DataLines(lines: seq<string>): seq<string> {
    if lines == [] then []
    else (if "data:" <= lines[0] then [TrimStart(lines[0][5..])] else []) + DataLines(lines[1..])
  }

  function Data(frame: string): string {
    Join(DataLines(SplitOn(frame, '\n')), "\n")
  }

  function Payload(frame: string): seq<string> {
    var data := Data(frame);
    if data != "" && data != "[DONE]" then [data] else []
  }

  function FramePayloads(frames: seq<string>): seq<string> {
    if frames == [] then [] else Payload(frames[0]) + FramePayloads(frames[1..])
  }

  function TailPayload(rest: string): seq<string> {
    if Trim(rest) == "" then [] else Payload(Trim(rest))
  }

  /** What a body means: normalise the whole text once, take its frames, then its trimmed rest. */
  function Payloads(text: string): seq<string> {
    FramePayloads(Frames(Lf(text)).0) + TailPayload(Frames(Lf(text)).1)
  }

  /** What the reads leave: the frames seen so far and the text still buffered. */
  function Buffered(chunks: seq<string>): (seq<string>, string) {
    if chunks == [] then ([], "")
    else
      var before := Buffered(chunks[..|chunks| - 1]);
      var now := Frames(Lf(before.1 + chunks[|chunks| - 1]));
      (before.0 + now.0, now.1)
  }

  lemma {:induction false} FramePayloadsAppend(a: seq<string>, b: seq<string>)
    ensures FramePayloads(a + b) == FramePayloads(a) + FramePayloads(b)
  {
    hide Payload;
    if a == [] {
      assert a + b == b;
    } else {
      assert (a + b)[0] == a[0] && (a + b)[1..] == a[1..] + b;
      FramePayloadsAppend(a[1..], b);
    }
  }

  lemma FramePayloadsPush(a: seq<string>, x: string)
    ensures FramePayloads(a + [x]) == FramePayloads(a) + Payload(x)
  {
    hide Payload;
    FramePayloadsAppend(a, [x]);
    assert FramePayloads([x]) == Payload(x) + FramePayloads([]);
  }

  // ---------------------------------------------------------------- line ends

  predicate NoCrCrLf(s: string) {
    forall k {:trigger s[k]} :: 0 <= k < |s| - 2 ==> !(s[k] == s[k + 1] == '\r' && s[k + 2] == '\n')
  }

  predicate NoCrLf(s: string) {
    forall k {:trigger s[k]} :: 0 <= k < |s| - 1 ==> !(s[k] == '\r' && s[k + 1] == '\n')
  }

  lemma {:induction false} LfFixed(s: string)
    requires NoCrLf(s)
    ensures Lf(s) == s
  {
    if |s| >= 2 {
      assert NoCrLf(s[1..]) by { assert forall k {:trigger s[1..][k]} :: 0 <= k < |s| - 1 ==> s[1..][k] == s[k + 1]; }
      LfFixed(s[1..]);
    }
  }

  /** Only a line feed that was already there, or one made of CR LF, can head a normalised text. */
  lemma LfHead(s: string)
    ensures (Lf(s) == "" <==> s == "")
    ensures s != "" ==> Lf(s)[0] == if |s| >= 2 && s[0] == '\r' && s[1] == '\n' then '\n' else s[0]
  {}

  lemma LfFirst(s: string)
    requires s != ""
    ensures var n := if |s| >= 2 && s[0] == '\r' && s[1] == '\n' then 2 else 1;
            Lf(s) == [if n == 2 then '\n' else s[0]] + Lf(s[n..])
  {}

  lemma TailKeepsNoCrCrLf(s: string, n: nat)
    requires NoCrCrLf(s) && n <= |s|
    ensures NoCrCrLf(s[n..])
  {
    assert forall k {:trigger s[n..][k]} :: 0 <= k < |s| - n ==> s[n..][k] == s[n + k];
  }

  /** Normalising is final exactly when no CR stands before a CR LF. */
  lemma {:induction false} LfFinal(s: string)
    ensures NoCrLf(Lf(s)) <==> NoCrCrLf(s)
  {
    if |s| >= 2 {
      var n := if s[0] == '\r' && s[1] == '\n' then 2 else 1;
      var rest := Lf(s[n..]);
      LfFinal(s[n..]);
      LfHead(s[n..]);
      assert Lf(s)[1..] == rest;
      assert forall k {:trigger s[n..][k]} :: 0 <= k < |s| - n ==> s[n..][k] == s[n + k];
      if NoCrCrLf(s) {
        TailKeepsNoCrCrLf(s, n);
        assert forall k {:trigger Lf(s)[k]} :: 0 < k < |Lf(s)| ==> Lf(s)[k] == rest[k - 1];
      }
      if NoCrLf(Lf(s)) {
        assert NoCrLf(rest) by {
          assert forall k {:trigger rest[k]} :: 0 <= k < |rest| ==> rest[k] == Lf(s)[k + 1];
        }
        assert |s| > 2 && s[0] == s[1] == '\r' ==> Lf(s)[0] == '\r' && Lf(s)[1] == rest[0];
        assert forall k {:trigger s[k]} :: n <= k < |s| ==> s[k] == s[n..][k - n];
      }
    }
  }

  /** Normalising twice changes nothing exactly when no CR stands before a CR LF. */
  lemma LfIdempotent(s: string)
    ensures Lf(Lf(s)) == Lf(s) <==> NoCrCrLf(s)
  {
    LfFinal(s);
    if NoCrLf(Lf(s)) {
      LfFixed(Lf(s));
    } else {
      LfShrinks(Lf(s));
    }
  }

  lemma {:induction false} LfShrinks(s: string)
    ensures |Lf(s)| <= |s|
    ensures !NoCrLf(s) ==> |Lf(s)| < |s|
  {
    if |s| >= 2 {
      if s[0] == '\r' && s[1] == '\n' {
        LfShrinks(s[2..]);
      } else {
        LfShrinks(s[1..]);
        if !NoCrLf(s) {
          var k :| 0 <= k < |s| - 1 && s[k] == '\r' && s[k + 1] == '\n';
          assert s[1..][k - 1] == s[k] && s[1..][k] == s[k + 1];
        }
      }
    }
  }

  /** What was normalised before the read need not be normalised apart from it. */
  lemma {:induction false} LfOfRead(a: string, b: string)
    requires NoCrCrLf(a + b)
    ensures Lf(a + b) == Lf(Lf(a) + b)
  {
    hide Lf;
    if |a| < 2 {
      LfFixed(a);
    } else {
      LfFirst(a);
      var n := if a[0] == '\r' && a[1] == '\n' then 2 else 1;
      var head := if n == 2 then '\n' else a[0];
      assert (a + b)[n..] == a[n..] + b;
      LfFirst(a + b);
      TailKeepsNoCrCrLf(a + b, n);
      LfOfRead(a[n..], b);
      LfHead(a[n..]);
      assert Lf(a) == [head] + Lf(a[n..]);
      var u := Lf(a) + b;
      assert u[1..] == Lf(a[n..]) + b;
      LfFirst(u);
      assert a[n..] == "" ==> u[1..] == b;
      assert !(head == '\r' && |u| >= 2 && u[1] == '\n') by {
        assert |a| > 2 && n == 1 ==> (a + b)[0] == a[0] && (a + b)[1] == a[1] && (a + b)[2] == a[2];
      }
    }
  }

  lemma {:induction false} LfBehind(p: string, z: string)
    requires NoCrLf(p) && p != "" && p[|p| - 1] != '\r'
    ensures Lf(p + z) == p + Lf(z)
  {
    hide Lf;
    LfFirst(p + z);
    assert (p + z)[1..] == p[1..] + z;
    assert |p| > 1 ==> (p + z)[0] == p[0] && (p + z)[1] == p[1];
    if |p| == 1 {
      assert p[1..] + z == z;
    } else {
      assert NoCrLf(p[1..]) by {
        assert forall k {:trigger p[1..][k]} :: 0 <= k < |p| - 1 ==> p[1..][k] == p[k + 1];
      }
      assert p[1..][|p| - 2] == p[|p| - 1];
      LfBehind(p[1..], z);
      assert p == [p[0]] + p[1..];
    }
  }

  // ---------------------------------------------------------------- chunk independence

  /** The first frame of x stays the first frame when other text follows it. */
  lemma FirstFrame(x: string, k: nat, z: string)
    requires BlankLine(x) == k
    ensures Frames(x[..k + 2] + z) == ([x[..k]] + Frames(z).0, Frames(z).1)
  {
    var u := x[..k + 2] + z;
    BlankLineFirst(x);
    assert forall j :: 0 <= j <= k ==> BlankAt(u, j) == BlankAt(x, j);
    BlankLineOf(u, k);
    assert u[..k] == x[..k] && u[k + 2..] == z;
  }

  /** Normalising does not reach back into a complete frame. */
  lemma LfPastFrame(x: string, k: nat, c: string)
    requires NoCrLf(x) && BlankLine(x) == k
    ensures NoCrLf(x[k + 2..])
    ensures Lf(x + c) == x[..k + 2] + Lf(x[k + 2..] + c)
  {
    hide Lf;
    var p, y := x[..k + 2], x[k + 2..];
    BlankLineFirst(x);
    assert forall j {:trigger y[j]} :: 0 <= j < |y| ==> y[j] == x[k + 2 + j];
    LfBehind(p, y + c);
    assert x + c == p + (y + c);
  }

  /** A read extends the frames already complete: only the buffered rest takes part in it. */
  lemma {:induction false} FramesOfRead(x: string, c: string)
    requires NoCrLf(x)
    ensures var f := Frames(x); var g := Frames(Lf(f.1 + c));
            Frames(Lf(x + c)) == (f.0 + g.0, g.1)
    decreases |x|
  {
    hide Lf, NoCrLf, BlankLine, Frames;
    var k := BlankLine(x);
    var g := Frames(Lf(Frames(x).1 + c));
    if k < 0 {
      LastFrame(x);
      assert [] + g.0 == g.0;
    } else {
      var y := x[k + 2..];
      FrameAndRest(x, k);
      LfPastFrame(x, k, c);
      FramesOfRead(y, c);
      FirstFrame(x, k, Lf(y + c));
      assert [x[..k]] + (Frames(y).0 + g.0) == ([x[..k]] + Frames(y).0) + g.0;
    }
  }

  /** The rest behind the frames is a suffix of the text. */
  lemma {:induction false} RestKeepsNoCrLf(x: string)
    requires NoCrLf(x)
    ensures NoCrLf(Frames(x).1)
    decreases |x|
  {
    var k := BlankLine(x);
    if k >= 0 {
      var y := x[k + 2..];
      assert forall j {:trigger y[j]} :: 0 <= j < |y| ==> y[j] == x[k + 2 + j];
      RestKeepsNoCrLf(y);
    }
  }

  /** After any reads the parser has seen the frames of the whole text so far and buffers its rest. */
  lemma {:induction false} BufferedIsWhole(chunks: seq<string>)
    requires NoCrCrLf(Flatten(chunks))
    ensures Buffered(chunks) == Frames(Lf(Flatten(chunks)))
  {
    hide Lf, NoCrCrLf, NoCrLf;
    if chunks == [] {
      EmptyText();
    } else {
      var init, c := chunks[..|chunks| - 1], chunks[|chunks| - 1];
      var t := Flatten(init);
      assert chunks == init + [c];
      FlattenPush(init, c);
      PrefixKeepsNoCrCrLf(t, c);
      BufferedIsWhole(init);
      LfOfRead(t, c);
      LfFinal(t);
      FramesOfRead(Lf(t), c);
    }
  }

  lemma EmptyText()
    ensures Frames(Lf("")) == ([], "")
  {}

  lemma PrefixKeepsNoCrCrLf(a: string, b: string)
    requires NoCrCrLf(a + b)
    ensures NoCrCrLf(a)
  {
    assert forall k {:trigger a[k]} :: 0 <= k < |a| ==> a[k] == (a + b)[k];
  }

  /** Where the reads cut the text makes no difference. */
  lemma ChunkIndependent(chunks: seq<string>)
    requires NoCrCrLf(Flatten(chunks))
    ensures FramePayloads(Buffered(chunks).0) + TailPayload(Lf(Buffered(chunks).1)) == Payloads(Flatten(chunks))
  {
    hide Payload, NoCrCrLf, TailPayload;
    var t := Flatten(chunks);
    BufferedIsWhole(chunks);
    LfFinal(t);
    var x := Lf(t);
    var rest := Frames(x).1;
    RestKeepsNoCrLf(x);
    LfFixed(rest);
  }

  lemma FrameAndRest(x: string, k: nat)
    requires BlankLine(x) == k
    ensures Frames(x) == ([x[..k]] + Frames(x[k + 2..]).0, Frames(x[k + 2..]).1)
  {}

  lemma NextFrame(seen: seq<string>, buffer: string, k: nat)
    requires BlankLine(buffer) == k
    ensures seen + Frames(buffer).0 == seen + [buffer[..k]] + Frames(buffer[k + 2..]).0
    ensures Frames(buffer).1 == Frames(buffer[k + 2..]).1
  {
    hide BlankLine;
    var rest := Frames(buffer[k + 2..]).0;
    assert Frames(buffer).0 == [buffer[..k]] + rest;
    assert seen + ([buffer[..k]] + rest) == seen + [buffer[..k]] + rest;
  }

  /** The source's loops. The first clause holds for every division into reads, whatever the text. */
  method ParseAnthropicSseBody(chunks: seq<string>) returns (payloads: seq<string>)
    ensures payloads == FramePayloads(Buffered(chunks).0) + TailPayload(Lf(Buffered(chunks).1))
    ensures NoCrCrLf(Flatten(chunks)) ==> payloads == Payloads(Flatten(chunks))
  {
    hide Payload, Lf, NoCrCrLf, Frames, BlankLine, FramePayloads, Payloads, Flatten;
    payloads := [];
    var buffer := "";
    NoFrames();
    for n := 0 to |chunks|
      invariant payloads == FramePayloads(Buffered(chunks[..n]).0)
      invariant buffer == Buffered(chunks[..n]).1
    {
      ghost var done := Buffered(chunks[..n]).0;
      assert chunks[..n + 1][..n] == chunks[..n];
      buffer := Lf(buffer + chunks[n]);
      ghost var all := Frames(buffer);
      var frameEnd := BlankLine(buffer);
      while frameEnd >= 0
        invariant frameEnd == BlankLine(buffer)
        invariant done + Frames(buffer).0 == Buffered(chunks[..n + 1]).0
        invariant Frames(buffer).1 == all.1
        invariant payloads == FramePayloads(done)
        decreases |buffer|
      {
        var frame := buffer[..frameEnd];
        NextFrame(done, buffer, frameEnd);
        FramePayloadsPush(done, frame);
        buffer := buffer[frameEnd + 2..];
        payloads := payloads + Payload(frame);
        done := done + [frame];
        frameEnd := BlankLine(buffer);
      }
      LastFrame(buffer);
      assert done + [] == done;
    }
    assert chunks[..|chunks|] == chunks;
    var tail := Trim(Lf(buffer));
    if tail != "" {
      payloads := payloads + Payload(tail);
    }
    if NoCrCrLf(Flatten(chunks)) {
      ChunkIndependent(chunks);
    }
  }

  lemma NoFrames()
    ensures FramePayloads([]) == []
  {}

  lemma LastFrame(buffer: string)
    requires BlankLine(buffer) < 0
    ensures Frames(buffer) == ([], buffer)
  {}

  // ---------------------------------------------------------------- round trip

  /** A payload the format can carry: not empty, not the end mark, without CR, no line led by white space. */
  predicate Sendable(p: string) {
    && p != "" && p != "[DONE]" && '\r' !in p
    && forall l :: l in SplitOn(p, '\n') && l != "" ==> !IsSpace(l[0])
  }

  function Prefixed(lines: seq<string>): (r: seq<string>)
    ensures |r| == |lines|
  {
    if lines == [] then [] else ["data: " + lines[0]] + Prefixed(lines[1..])
  }

  /** One frame per payload, every line of it behind `data: `, with either line end. */
  function Wire(ps: seq<string>, eol: string): string {
    if ps == [] then ""
    else Join(Prefixed(SplitOn(ps[0], '\n')), eol) + eol + eol + Wire(ps[1..], eol)
  }

  lemma {:induction false} PrefixedLines(lines: seq<string>)
    requires forall l :: l in lines && l != "" ==> !IsSpace(l[0])
    ensures DataLines(Prefixed(lines)) == lines
  {
    if lines != [] {
      var d := "data: " + lines[0];
      assert lines[0] in lines;
      assert d[5..] == " " + lines[0] && d[..5] == "data:";
      assert d[5..][1..] == lines[0];
      assert IsSpace(' ');
      assert TrimStart(d[5..]) == lines[0];
      PrefixedLines(lines[1..]);
    }
  }

  lemma {:induction false} PrefixedKeeps(lines: seq<string>, c: char)
    requires c != ' ' && c !in "data:" && forall l :: l in lines ==> c !in l
    ensures forall l :: l in Prefixed(lines) ==> c !in l && l != "" && l[0] != '\n'
  {
    if lines != [] {
      PrefixedKeeps(lines[1..], c);
      assert c !in "data: " + lines[0];
    }
  }

  /** Reading a payload's frame gives the payload back. */
  lemma PayloadOfFrame(p: string)
    requires Sendable(p)
    ensures Payload(Join(Prefixed(SplitOn(p, '\n')), "\n")) == [p]
  {
    var lines := SplitOn(p, '\n');
    JoinOfSplit(p, '\n');
    PrefixedKeeps(lines, '\n');
    SplitOfJoin(Prefixed(lines), '\n');
    PrefixedLines(lines);
  }

  lemma {:induction false} BlankLineBehind(l: string, z: string)
    requires '\n' !in l && BlankLine(z) >= 0
    ensures BlankLine(l + z) == |l| + BlankLine(z)
  {
    if l == "" {
      assert l + z == z;
    } else {
      BlankLineBehind(l[1..], z);
      assert (l + z)[1..] == l[1..] + z;
    }
  }

  /** The first blank line behind lines that are not empty is the one that closes their frame. */
  lemma {:induction false} FrameCloses(lines: seq<string>, z: string)
    requires |lines| > 0 && forall l :: l in lines ==> '\n' !in l && l != "" && l[0] != '\n'
    ensures BlankLine(Join(lines, "\n") + "\n\n" + z) == |Join(lines, "\n")|
  {
    hide BlankLine;
    var first := lines[0];
    if |lines| == 1 {
      BlankLineHere(z);
      BlankLineBehind(first, "\n\n" + z);
      assert first + "\n\n" + z == first + ("\n\n" + z);
    } else {
      var rest := Join(lines[1..], "\n") + "\n\n" + z;
      assert lines[1] in lines && forall l :: l in lines[1..] ==> l in lines;
      FrameCloses(lines[1..], z);
      BlankLinePast(rest);
      BlankLineBehind(first, "\n" + rest);
      assert Join(lines, "\n") + "\n\n" + z == first + ("\n" + rest);
    }
  }

  lemma BlankLineHere(z: string)
    ensures BlankLine("\n\n" + z) == 0
  {}

  lemma BlankLinePast(rest: string)
    requires rest != "" && rest[0] != '\n' && BlankLine(rest) >= 0
    ensures BlankLine("\n" + rest) == 1 + BlankLine(rest)
  {
    assert ("\n" + rest)[1..] == rest;
  }

  lemma FrameOfPayload(p: string, z: string)
    requires Sendable(p)
    ensures var f := Join(Prefixed(SplitOn(p, '\n')), "\n");
            Frames(f + "\n\n" + z) == ([f] + Frames(z).0, Frames(z).1)
  {
    hide Sendable, BlankLine, DataLines;
    var lines := Prefixed(SplitOn(p, '\n'));
    var f := Join(lines, "\n");
    var u := f + "\n\n" + z;
    JoinOfSplit(p, '\n');
    PrefixedKeeps(SplitOn(p, '\n'), '\n');
    FrameCloses(lines, z);
    assert u[..|f|] == f && u[|f| + 2..] == z;
  }

  lemma {:induction false} FramesOfWire(ps: seq<string>)
    requires forall p :: p in ps ==> Sendable(p)
    ensures FramePayloads(Frames(Wire(ps, "\n")).0) == ps && Frames(Wire(ps, "\n")).1 == ""
  {
    hide Payload, BlankLine, Sendable, Frames, Join, SplitOn, Prefixed;
    if ps == [] {
      assert Wire(ps, "\n") == "";
      LastFrame("");
      NoFrames();
    } else {
      var f, z := Join(Prefixed(SplitOn(ps[0], '\n')), "\n"), Wire(ps[1..], "\n");
      assert f + "\n" + "\n" + z == f + "\n\n" + z;
      FrameOfPayload(ps[0], z);
      PayloadOfFrame(ps[0]);
      FramesOfWire(ps[1..]);
      assert ([f] + Frames(z).0)[1..] == Frames(z).0;
      assert [ps[0]] + ps[1..] == ps;
    }
  }

  lemma LfOfPlain(l: string, z: string)
    requires '\r' !in l
    ensures Lf(l + z) == l + Lf(z)
  {
    if l == "" {
      assert l + z == z;
    } else {
      LfBehind(l, z);
    }
  }

  lemma LfOfEol(eol: string, z: string)
    requires IsLineEnd(eol)
    ensures Lf(eol + z) == "\n" + Lf(z)
  {
    if eol == "\n" {
      LfOfPlain(eol, z);
    } else {
      assert (eol + z)[2..] == z;
    }
  }

  lemma {:induction false} LfOfJoin(lines: seq<string>, eol: string, z: string)
    requires IsLineEnd(eol) && forall l :: l in lines ==> '\r' !in l
    ensures Lf(Join(lines, eol) + z) == Join(lines, "\n") + Lf(z)
  {
    hide Lf, IsLineEnd;
    if |lines| == 0 {
      assert "" + z == z && "" + Lf(z) == Lf(z);
    } else if |lines| == 1 {
      LfOfPlain(lines[0], z);
    } else {
      var rest := Join(lines[1..], eol);
      LfOfJoin(lines[1..], eol, z);
      LfOfPlain(lines[0], eol + (rest + z));
      LfOfEol(eol, rest + z);
      assert Join(lines, eol) + z == lines[0] + (eol + (rest + z));
    }
  }

  /** Both line ends normalise to the same text, and no CR survives. */
  lemma {:induction false} LfOfWire(ps: seq<string>, eol: string)
    requires IsLineEnd(eol) && forall p :: p in ps ==> Sendable(p)
    ensures Lf(Wire(ps, eol)) == Wire(ps, "\n") && '\r' !in Wire(ps, "\n")
  {
    hide Lf, Sendable;
    if ps == [] {
      EmptyText();
    } else {
      var p := ps[0];
      var lines := Prefixed(SplitOn(p, '\n'));
      var z := Wire(ps[1..], eol);
      assert Sendable(p);
      NoCrInLines(p);
      LfOfWire(ps[1..], eol);
      LfOfEol(eol, z);
      LfOfEol(eol, eol + z);
      LfOfJoin(lines, eol, eol + (eol + z));
      assert Wire(ps, eol) == Join(lines, eol) + (eol + (eol + z));
      NoCrInJoin(lines);
    }
  }

  lemma NoCrInLines(p: string)
    requires Sendable(p)
    ensures forall l :: l in Prefixed(SplitOn(p, '\n')) ==> '\r' !in l
  {
    JoinOfSplit(p, '\n');
    InPartInJoin(SplitOn(p, '\n'), '\r');
    PrefixedKeeps(SplitOn(p, '\n'), '\r');
  }

  lemma {:induction false} InPartInJoin(parts: seq<string>, c: char)
    requires c !in Join(parts, "\n")
    ensures forall l :: l in parts ==> c !in l
  {
    if |parts| > 1 {
      var j := Join(parts, "\n");
      var rest := Join(parts[1..], "\n");
      forall k | 0 <= k < |rest| ensures rest[k] != c {
        assert rest[k] == j[|parts[0]| + 1 + k];
      }
      InPartInJoin(parts[1..], c);
      forall k | 0 <= k < |parts[0]| ensures parts[0][k] != c {
        assert parts[0][k] == j[k];
      }
    }
  }

  lemma {:induction false} NoCrInJoin(lines: seq<string>)
    requires forall l :: l in lines ==> '\r' !in l
    ensures '\r' !in Join(lines, "\n")
  {
    if |lines| > 1 {
      NoCrInJoin(lines[1..]);
    }
  }

  /** What is sent is what is read, with LF or CR LF line ends and however the reads cut it. */
  lemma WireRoundTrip(ps: seq<string>, eol: string, chunks: seq<string>)
    requires IsLineEnd(eol) && forall p :: p in ps ==> Sendable(p)
    requires Flatten(chunks) == Wire(ps, eol)
    ensures FramePayloads(Buffered(chunks).0) + TailPayload(Lf(Buffered(chunks).1)) == ps
  {
    hide Payload, Frames, BlankLine, Sendable, Buffered;
    var x := Wire(ps, "\n");
    LfOfWire(ps, eol);
    assert NoCrLf(x);
    LfFinal(Wire(ps, eol));
    ChunkIndependent(chunks);
    FramesOfWire(ps);
    assert TailPayload("") == [] by { TrimFixed(""); }
  }

  // ---------------------------------------------------------------- where the cuts matter

  /** A line that carries the payload p. */
  predicate DataLine(l: string, p: string) {
    && '\n' !in l && '\r' !in l
    && "data:" <= l && TrimStart(l[5..]) == p && p != "" && p != "[DONE]"
    && !IsSpace(l[0]) && !IsSpace(l[|l| - 1])
  }

  lemma DataLinePayload(l: string, p: string)
    requires DataLine(l, p)
    ensures Payload(l) == [p] && Trim(l) == l
  {
    hide Trim, IsSpace;
    SplitOfPlain(l, '\n');
    TrimFixed(l);
    assert DataLines([l]) == [p] + DataLines([]);
  }

  lemma DataOfTwoLines(l: string, p: string, m: string, q: string)
    requires DataLine(l, p) && DataLine(m, q)
    ensures DataLines([l, "", m]) == [p, q]
  {
    hide IsSpace, TrimStart;
    var lines := [l, "", m];
    assert lines[1..] == ["", m] && ["", m][1..] == [m];
    assert DataLines([m]) == [q] + DataLines([]);
    assert DataLines(["", m]) == DataLines([m]);
  }

  lemma SplitTwoLines(l: string, m: string)
    requires '\n' !in l && '\n' !in m
    ensures SplitOn(l + "\n\n" + m, '\n') == [l, "", m]
  {
    hide SplitOn;
    SplitAtFirst(l, '\n', "\n" + m);
    SplitAtFirst("", '\n', m);
    SplitOfPlain(m, '\n');
    assert l + "\n\n" + m == l + ['\n'] + ("\n" + m) && "" + ['\n'] + m == "\n" + m;
  }

  /** Two data lines in one frame make one payload of two lines, blank line between them or not. */
  lemma TwoLinePayload(l: string, p: string, m: string, q: string)
    requires DataLine(l, p) && DataLine(m, q)
    ensures var f := l + "\n\n" + m; Payload(f) == [p + "\n" + q] && Trim(f) == f
  {
    hide IsSpace, TrimStart, SplitOn, DataLines;
    var f := l + "\n\n" + m;
    TrimFixed(f);
    SplitTwoLines(l, m);
    DataOfTwoLines(l, p, m, q);
    assert Join([p, q], "\n") == p + "\n" + Join([q], "\n") by { assert [p, q][1..] == [q]; }
    assert (p + "\n" + q)[|p|] == '\n' && '\n' !in "[DONE]";
  }

  lemma LfOfCrLf(z: string)
    ensures Lf("\r\n" + z) == "\n" + Lf(z)
    ensures Lf("\r\r\n" + z) == "\r\n" + Lf(z)
  {
    hide Lf;
    LfFirst("\r\n" + z);
    LfFirst("\r\r\n" + z);
    assert ("\r\n" + z)[2..] == z && ("\r\r\n" + z)[1..] == "\r\n" + z;
  }

  /** CR CR LF twice between two lines: normalising leaves CR LF twice, and only normalising again LF. */
  lemma CrCrLfTwice(l: string, m: string)
    requires '\r' !in l && '\r' !in m
    ensures Lf(l + "\r\r\n\r\r\n" + m) == l + "\r\n\r\n" + m
    ensures Lf(l + "\r\n\r\n" + m) == l + "\n\n" + m
  {
    hide Lf;
    var a, c := "\r\n" + m, "\r\r\n" + m;
    LfFixed(m);
    LfOfCrLf(m);
    LfOfCrLf(a);
    LfOfCrLf(c);
    LfOfPlain(l, "\r\r\n" + c);
    LfOfPlain(l, "\r\n" + a);
    assert l + "\r\r\n\r\r\n" + m == l + ("\r\r\n" + c);
    assert l + "\r\n\r\n" + m == l + ("\r\n" + a);
    assert l + ("\r\n" + ("\r\n" + m)) == l + "\r\n\r\n" + m;
    assert l + ("\n" + ("\n" + m)) == l + "\n\n" + m;
  }

  lemma NoFrameInCrLf(l: string, m: string)
    requires '\n' !in l && '\n' !in m
    ensures var y := l + "\r\n\r\n" + m; Frames(y) == ([], y)
  {
    var y := l + "\r\n\r\n" + m;
    BlankLineFirst(y);
    forall j ensures !BlankAt(y, j) {}
    LastFrame(y);
  }

  lemma OneFrame(l: string, m: string)
    requires '\n' !in l && '\n' !in m
    ensures var f := l + "\n\n" + m; Frames(f) == ([l], m)
  {
    var f := l + "\n\n" + m;
    BlankLineFirst(m);
    forall j ensures !BlankAt(m, j) {}
    LastFrame(m);
    assert BlankLine("\n\n" + m) == 0;
    BlankLineBehind(l, "\n\n" + m);
    assert f == l + ("\n\n" + m);
    assert f[..|l|] == l && f[|l| + 2..] == m;
    NextFrame([], f, |l|);
    assert [] + [l] + [] == [l] && [] + Frames(f).0 == Frames(f).0;
  }

  /** With a CR before a CR LF the cuts do matter: one text read in two ways gives one payload or two. */
  lemma CrCrLfDependsOnCuts(l: string, p: string, m: string, q: string)
    requires DataLine(l, p) && DataLine(m, q)
    ensures var head := l + "\r\r\n\r\r\n";
            var whole, cut := Buffered([head + m]), Buffered([head, m]);
            && FramePayloads(whole.0) + TailPayload(Lf(whole.1)) == [p + "\n" + q]
            && FramePayloads(cut.0) + TailPayload(Lf(cut.1)) == [p, q]
  {
    hide Payload, Lf, Frames, FramePayloads, BlankLine, DataLine;
    DataLineChars(l, p);
    DataLineChars(m, q);
    var head, y, x := l + "\r\r\n\r\r\n", l + "\r\n\r\n" + m, l + "\r\n\r\n";
    CrCrLfTwice(l, m);
    CrCrLfTwice(l, "");
    NoFrameInCrLf(l, m);
    NoFrameInCrLf(l, "");
    OneFrame(l, m);
    NoFrames();
    TwoLinePayload(l, p, m, q);
    DataLinePayload(l, p);
    DataLinePayload(m, q);
    assert head + "" == head && x + "" == x && x + m == y;
    OneRead(head + m);
    OneRead(head);
    assert [head, m][..1] == [head];
    assert Buffered([head, m]) == ([] + [l], m);
    FramePayloadsPush([], l);
    assert [] + [l] == [l] && [] + [p] == [p];
    LfFixed(m);
  }

  lemma DataLineChars(l: string, p: string)
    requires DataLine(l, p)
    ensures '\n' !in l && '\r' !in l && |l| >= 5
  {}

  lemma OneRead(c: string)
    ensures Buffered([c]) == Frames(Lf(c))
  {
    hide Lf, Frames;
    assert [c][..0] == [] && "" + c == c;
    assert [] + Frames(Lf(c)).0 == Frames(Lf(c)).0;
  }

  predicate EndsInCrLf(s: string) {
    |s| >= 2 && s[|s| - 2] == '\r' && s[|s| - 1] == '\n'
  }

  /** Characters that frames and rest take up, with the blank lines behind the frames. */
  function Size(frames: seq<string>, rest: string): nat {
    if frames == [] then |rest| else |frames[0]| + 2 + Size(frames[1..], rest)
  }

  lemma {:induction false} SizeOfAppend(a: seq<string>, b: seq<string>, rest: string)
    ensures Size(a + b, rest) == Size(a, "") + Size(b, rest)
  {
    if a == [] {
      assert a + b == b;
    } else {
      assert (a + b)[0] == a[0] && (a + b)[1..] == a[1..] + b;
      SizeOfAppend(a[1..], b, rest);
    }
  }

  /** Frames lose nothing. */
  lemma {:induction false} SizeOfFrames(s: string)
    ensures Size(Frames(s).0, Frames(s).1) == |s|
    decreases |s|
  {
    hide BlankLine;
    var k := BlankLine(s);
    if k >= 0 {
      SizeOfFrames(s[k + 2..]);
      assert Frames(s).0[1..] == Frames(s[k + 2..]).0;
    }
  }

  /** A CR LF at the end is never part of a frame. */
  lemma {:induction false} RestKeepsCrLf(s: string)
    requires EndsInCrLf(s)
    ensures EndsInCrLf(Frames(s).1)
    decreases |s|
  {
    var k := BlankLine(s);
    if k >= 0 {
      BlankLineFirst(s);
      RestKeepsCrLf(s[k + 2..]);
    }
  }

  /** Behind any character but a CR normalising starts afresh. */
  lemma {:induction false} LfSplits(a: string, b: string)
    requires a != "" && a[|a| - 1] != '\r'
    ensures Lf(a + b) == Lf(a) + Lf(b)
  {
    hide Lf;
    var n := if |a| >= 2 && a[0] == '\r' && a[1] == '\n' then 2 else 1;
    LfFirst(a);
    LfFirst(a + b);
    assert (a + b)[n..] == a[n..] + b;
    if |a| == n {
      assert a[n..] + b == b && Lf(a[n..]) == "" by { LfHead(""); }
    } else {
      LfSplits(a[n..], b);
    }
  }

  lemma {:induction false} LfLeavesCrLf(a: string)
    requires |a| >= 3 && a[|a| - 3] == '\r' && EndsInCrLf(a)
    ensures EndsInCrLf(Lf(a))
  {
    if |a| == 3 {
      assert a == "\r\r\n" + "";
      LfOfCrLf("");
    } else {
      var n := if a[0] == '\r' && a[1] == '\n' then 2 else 1;
      LfLeavesCrLf(a[n..]);
      assert Lf(a)[1..] == Lf(a[n..]);
    }
  }

  lemma TwoReads(a: string, b: string)
    ensures var f := Frames(Lf(a)); var g := Frames(Lf(f.1 + b));
            Buffered([a, b]) == (f.0 + g.0, g.1)
  {
    hide Lf, Frames;
    assert [a, b][..1] == [a];
    OneRead(a);
  }

  /** Cut behind a CR CR LF, the text that is left shrinks once more. */
  lemma CutShrinks(a: string, b: string)
    requires |a| >= 3 && a[|a| - 3] == '\r' && EndsInCrLf(a)
    ensures Buffered([a, b]) != Frames(Lf(a + b))
  {
    hide Lf, Frames, Buffered;
    var f := Frames(Lf(a));
    var g := Frames(Lf(f.1 + b));
    LfLeavesCrLf(a);
    RestKeepsCrLf(Lf(a));
    LfSplits(a, b);
    LfSplits(f.1, b);
    assert !NoCrLf(f.1) by { assert f.1[|f.1| - 2] == '\r'; }
    LfShrinks(f.1);
    TwoReads(a, b);
    SizeOfFrames(Lf(a));
    SizeOfFrames(Lf(f.1 + b));
    SizeOfFrames(Lf(a + b));
    SizeOfAppend(f.0, g.0, g.1);
    SizeOfAppend(f.0, [], f.1);
    assert f.0 + [] == f.0;
  }

  /** What the parser has seen and still buffers depends on the text alone, for every division into reads, exactly
      when no CR stands before a CR LF. */
  lemma CutsDoNotMatterIff(t: string)
    ensures (forall chunks :: Flatten(chunks) == t ==> Buffered(chunks) == Frames(Lf(t))) <==> NoCrCrLf(t)
  {
    hide Lf, Frames, Buffered, Flatten;
    if NoCrCrLf(t) {
      forall chunks | Flatten(chunks) == t ensures Buffered(chunks) == Frames(Lf(t)) {
        BufferedIsWhole(chunks);
      }
    } else {
      var k :| 0 <= k < |t| - 2 && t[k] == t[k + 1] == '\r' && t[k + 2] == '\n';
      var a, b := t[..k + 3], t[k + 3..];
      assert a + b == t;
      FlattenTwo(a, b);
      CutShrinks(a, b);
    }
  }

  lemma FlattenTwo(a: string, b: string)
    ensures Flatten([a, b]) == a + b
  {
    FlattenPush([a], b);
    FlattenPush([], a);
    assert [a] + [b] == [a, b] && [] + [a] == [a];
  }

  // ---------------------------------------------------------------- where the cuts are harmless all the same

  lemma {:induction false} LfAddsOnlyLf(s: string, c: char)
    requires c !in s && c != '\n'
    ensures c !in Lf(s)
  {
    hide Lf;
    if s != "" {
      var n := if |s| >= 2 && s[0] == '\r' && s[1] == '\n' then 2 else 1;
      LfFirst(s);
      LfAddsOnlyLf(s[n..], c);
    } else {
      LfHead(s);
    }
  }

  lemma {:induction false} FramesAddNothing(s: string, c: char)
    requires c !in s
    ensures c !in Frames(s).1 && forall f :: f in Frames(s).0 ==> c !in f
    decreases |s|
  {
    hide BlankLine, Frames;
    var k := BlankLine(s);
    if k < 0 {
      LastFrame(s);
    } else {
      FrameAndRest(s, k);
      FramesAddNothing(s[k + 2..], c);
    }
  }

  lemma {:induction false} BufferedAddsNothing(chunks: seq<string>, c: char)
    requires c !in Flatten(chunks) && c != '\n'
    ensures c !in Buffered(chunks).1 && forall f :: f in Buffered(chunks).0 ==> c !in f
  {
    if chunks != [] {
      hide Lf, Frames;
      var init, last := chunks[..|chunks| - 1], chunks[|chunks| - 1];
      assert chunks == init + [last];
      FlattenPush(init, last);
      BufferedAddsNothing(init, c);
      LfAddsOnlyLf(Buffered(init).1 + last, c);
      FramesAddNothing(Lf(Buffered(init).1 + last), c);
    }
  }

  lemma {:induction false} NoDataLines(lines: seq<string>)
    requires forall l :: l in lines ==> ':' !in l
    ensures DataLines(lines) == []
  {
    if lines != [] {
      forall l: string | "data:" <= l ensures ':' in l {
        assert l[4] == ':';
      }
      assert lines[0] in lines;
      NoDataLines(lines[1..]);
    }
  }

  lemma NoPayload(frame: string)
    requires ':' !in frame
    ensures Payload(frame) == []
  {
    hide SplitOn, DataLines;
    var lines := SplitOn(frame, '\n');
    JoinOfSplit(frame, '\n');
    InPartInJoin(lines, ':');
    NoDataLines(lines);
  }

  lemma {:induction false} NoPayloads(frames: seq<string>)
    requires forall f :: f in frames ==> ':' !in f
    ensures FramePayloads(frames) == []
  {
    hide Payload;
    if frames != [] {
      NoPayload(frames[0]);
      NoPayloads(frames[1..]);
    }
  }

  lemma TrimAddsNothing(s: string, c: char)
    requires c !in s
    ensures c !in Trim(s)
  {
    hide TrimEnd, TrimStart, IsSpace;
  }

  /** A text without a colon gives no payload, however it is cut and whatever line ends it has. */
  lemma NoColonNoPayload(chunks: seq<string>)
    requires ':' !in Flatten(chunks)
    ensures FramePayloads(Buffered(chunks).0) + TailPayload(Lf(Buffered(chunks).1)) == [] == Payloads(Flatten(chunks))
  {
    hide Lf, Frames, Buffered, Flatten, Payload, Trim;
    var t, rest := Flatten(chunks), Buffered(chunks).1;
    BufferedAddsNothing(chunks, ':');
    NoPayloads(Buffered(chunks).0);
    LfAddsOnlyLf(rest, ':');
    NoTailPayload(Lf(rest));
    LfAddsOnlyLf(t, ':');
    FramesAddNothing(Lf(t), ':');
    NoPayloads(Frames(Lf(t)).0);
    NoTailPayload(Frames(Lf(t)).1);
  }

  lemma NoTailPayload(rest: string)
    requires ':' !in rest
    ensures TailPayload(rest) == []
  {
    hide Trim, Payload;
    TrimAddsNothing(rest, ':');
    NoPayload(Trim(rest));
  }
}
