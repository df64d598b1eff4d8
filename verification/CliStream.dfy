/** The JSONL streaming parser of src/agents/cli-output.ts. Decoding a line into JSON records is a parameter. */
module CliStream {
  import opened Text

  /** Decoded JSON, as far as the streaming parser looks at it. */
  datatype Json = Str(s: string) | Rec(fields: map<string, Json>) | Other {
    function Get(key: string): Json {
      if Rec? && key in fields then fields[key] else Other
    }
  }

  datatype CliUsage = CliUsage(
    input: Option<int>, output: Option<int>, cacheRead: Option<int>, cacheWrite: Option<int>, total: Option<int>)

  datatype Delta = Delta(text: string, delta: string, sessionId: Option<string>, usage: Option<CliUsage>)

  /** What the parser is given: the decoder of a line, the reading of a usage record, the session id fields and
      whether the backend speaks the stream-json dialect. */
  datatype Config = Config(
    decode: string -> seq<Json>, toUsage: Json -> Option<CliUsage>, sessionIdFields: seq<string>, streamJson: bool)

  /** What the parser has learned and emitted. */
  datatype Progress = Progress(
    text: string, sessionId: Option<string>, usage: Option<CliUsage>, emitted: seq<Delta>)

  function PickSessionId(parsed: Json, fields: seq<string>): Option<string> {
    if fields == [] then None
    else
      var value := parsed.Get(fields[0]);
      if value.Str? && Trim(value.s) != "" then Some(Trim(value.s)) else PickSessionId(parsed, fields[1..])
  }

  /** The text of a text delta event; None for every other record. */
  function DeltaText(parsed: Json, streamJson: bool): Option<string> {
    var event := parsed.Get("event");
    var delta := event.Get("delta");
    if && streamJson
       && parsed.Get("type") == Str("stream_event")
       && event.Get("type") == Str("content_block_delta")
       && delta.Get("type") == Str("text_delta")
       && delta.Get("text").Str? && delta.Get("text").s != ""
    then Some(delta.Get("text").s) else None
  }

  function Handle(c: Config, p: Progress, parsed: Json): Progress {
    var picked := OrElse(PickSessionId(parsed, c.sessionIdFields), p.sessionId);
    var thread := parsed.Get("thread_id");
    var sessionId := if picked.GetOr("") == "" && thread.Str? then Some(Trim(thread.s)) else picked;
    var usage := if parsed.Get("usage").Rec? then OrElse(c.toUsage(parsed.Get("usage")), p.usage) else p.usage;
    match DeltaText(parsed, c.streamJson)
    case None => p.(sessionId := sessionId, usage := usage)
    case Some(d) => Progress(p.text + d, sessionId, usage, p.emitted + [Delta(p.text + d, d, sessionId, usage)])
  }

  function HandleAll(c: Config, p: Progress, records: seq<Json>): Progress
    decreases |records|
  {
    if records == [] then p else HandleAll(c, Handle(c, p, records[0]), records[1..])
  }

  function HandleLine(c: Config, p: Progress, line: string): Progress {
    if Trim(line) == "" then p else HandleAll(c, p, c.decode(Trim(line)))
  }

  function HandleLines(c: Config, p: Progress, lines: seq<string>): Progress
    decreases |lines|
  {
    if lines == [] then p else HandleLines(c, HandleLine(c, p, lines[0]), lines[1..])
  }

  function Init<T>(s: seq<T>): seq<T> requires s != [] { s[..|s| - 1] }
  function Last<T>(s: seq<T>): T requires s != [] { s[|s| - 1] }

  lemma {:induction false} HandleLinesAppend(c: Config, p: Progress, a: seq<string>, b: seq<string>)
    ensures HandleLines(c, p, a + b) == HandleLines(c, HandleLines(c, p, a), b)
    decreases |a|
  {
    hide HandleLine;
    if a == [] {
      assert a + b == b;
    } else {
      assert (a + b)[0] == a[0] && (a + b)[1..] == a[1..] + b;
      HandleLinesAppend(c, HandleLine(c, p, a[0]), a[1..], b);
    }
  }

  lemma HandleLinesPush(c: Config, p: Progress, a: seq<string>, x: string)
    ensures HandleLines(c, p, a + [x]) == HandleLine(c, HandleLines(c, p, a), x)
  {
    hide HandleLine;
    HandleLinesAppend(c, p, a, [x]);
    assert [x][1..] == [];
  }

  /** One push: handle the lines that are now complete and keep the rest. */
  function Pushed(c: Config, st: (Progress, string), chunk: string): (Progress, string) {
    var lines := SplitOn(st.1 + chunk, '\n');
    (HandleLines(c, st.0, Init(lines)), Last(lines))
  }

  function PushedAll(c: Config, st: (Progress, string), chunks: seq<string>): (Progress, string)
    decreases |chunks|
  {
    if chunks == [] then st else Pushed(c, PushedAll(c, st, Init(chunks)), Last(chunks))
  }

  function Finished(c: Config, st: (Progress, string)): Progress {
    HandleLines(c, st.0, SplitOn(st.1, '\n'))
  }

  function Start(): (Progress, string) {
    (Progress("", None, None, []), "")
  }

  class CliJsonlStreamingParser {
    const config: Config
    var lineBuffer: string
    var assistantText: string
    var sessionId: Option<string>
    var usage: Option<CliUsage>
    /** The deltas handed to onAssistantDelta, in order. */
    var emitted: seq<Delta>

    function View(): Progress reads this {
      Progress(assistantText, sessionId, usage, emitted)
    }

    constructor (config: Config)
      ensures this.config == config && (View(), lineBuffer) == Start()
    {
      this.config := config;
      lineBuffer, assistantText, sessionId, usage, emitted := "", "", None, None, [];
    }

    method HandleParsedRecord(parsed: Json)
      modifies this
      ensures View() == Handle(config, old(View()), parsed)
      ensures lineBuffer == old(lineBuffer)
    {
      hide PickSessionId, DeltaText, Trim, TrimStart, TrimEnd, Json.Get;
      sessionId := OrElse(PickSessionId(parsed, config.sessionIdFields), sessionId);
      if sessionId.GetOr("") == "" && parsed.Get("thread_id").Str? {
        sessionId := Some(Trim(parsed.Get("thread_id").s));
      }
      if parsed.Get("usage").Rec? {
        usage := OrElse(config.toUsage(parsed.Get("usage")), usage);
      }
      var delta := DeltaText(parsed, config.streamJson);
      if delta.None? {
        return;
      }
      assistantText := assistantText + delta.value;
      emitted := emitted + [Delta(assistantText, delta.value, sessionId, usage)];
    }

    method HandleText(line: string)
      modifies this
      ensures View() == HandleLine(config, old(View()), line)
      ensures lineBuffer == old(lineBuffer)
    {
      if Trim(line) == "" {
        return;
      }
      var records := config.decode(Trim(line));
      for k := 0 to |records|
        invariant HandleAll(config, View(), records[k..]) == HandleAll(config, old(View()), records)
        invariant lineBuffer == old(lineBuffer)
      {
        assert records[k..][1..] == records[k + 1..];
        HandleParsedRecord(records[k]);
      }
    }

    method FlushLines(flushPartial: bool)
      modifies this
      ensures var lines := SplitOn(old(lineBuffer), '\n');
              && View() == HandleLines(config, old(View()), if flushPartial then lines else Init(lines))
              && lineBuffer == if flushPartial then "" else Last(lines)
    {
      hide HandleLine, HandleLines, SplitOn;
      ghost var lines := SplitOn(lineBuffer, '\n');
      ghost var n := 0;
      assert lines[0..] == lines && lines[..0] == [];
      NoLines(config, View());
      while '\n' in lineBuffer
        invariant n < |lines| && SplitOn(lineBuffer, '\n') == lines[n..]
        invariant View() == HandleLines(config, old(View()), lines[..n])
        decreases |lineBuffer|
      {
        var newlineIndex := IndexOf(lineBuffer, '\n');
        var line := lineBuffer[..newlineIndex];
        FirstLine(lineBuffer, newlineIndex);
        HandleLinesPush(config, old(View()), lines[..n], line);
        assert lines[..n + 1] == lines[..n] + [line] && lines[n..][1..] == lines[n + 1..];
        lineBuffer := lineBuffer[newlineIndex + 1..];
        HandleText(line);
        n := n + 1;
      }
      SplitOfPlain(lineBuffer, '\n');
      assert lines[n..] == [lineBuffer] && lines == lines[..n] + [lineBuffer];
      if !flushPartial {
        return;
      }
      HandleLinesPush(config, old(View()), lines[..n], lineBuffer);
      var tail := lineBuffer;
      lineBuffer := "";
      HandleText(tail);
    }

    method Push(chunk: string)
      modifies this
      requires '\n' !in lineBuffer
      ensures '\n' !in lineBuffer
      ensures (View(), lineBuffer) == Pushed(config, (old(View()), old(lineBuffer)), chunk)
    {
      if chunk == "" {
        assert lineBuffer + "" == lineBuffer;
        SplitOfPlain(lineBuffer, '\n');
        return;
      }
      hide HandleLines, SplitOn;
      JoinOfSplit(lineBuffer + chunk, '\n');
      lineBuffer := lineBuffer + chunk;
      FlushLines(false);
    }

    method Finish()
      modifies this
      ensures View() == Finished(config, (old(View()), old(lineBuffer))) && lineBuffer == ""
    {
      FlushLines(true);
    }
  }

  lemma NoLines(c: Config, p: Progress)
    ensures HandleLines(c, p, []) == p
  {}

  function IndexOf(s: string, c: char): (k: nat)
    requires c in s
    ensures k < |s| && s[k] == c && c !in s[..k]
  {
    if s[0] == c then 0 else
      var k := IndexOf(s[1..], c);
      assert s[..k + 1] == [s[0]] + s[1..][..k];
      k + 1
  }

  lemma FirstLine(s: string, k: nat)
    requires k < |s| && s[k] == '\n' && '\n' !in s[..k]
    ensures SplitOn(s, '\n') == [s[..k]] + SplitOn(s[k + 1..], '\n')
  {
    hide SplitOn;
    SplitAtFirst(s[..k], '\n', s[k + 1..]);
    assert s == s[..k] + ['\n'] + s[k + 1..];
  }

  // ---------------------------------------------------------------- chunk independence

  /** Text behind a split only continues its last part. */
  lemma SplitOfAppend(a: string, b: string)
    ensures SplitOn(a + b, '\n') == Init(SplitOn(a, '\n')) + SplitOn(Last(SplitOn(a, '\n')) + b, '\n')
  {
    hide SplitOn;
    var p := SplitOn(a, '\n');
    var q := SplitOn(Last(p) + b, '\n');
    JoinOfSplit(a, '\n');
    JoinOfSplit(Last(p) + b, '\n');
    assert p == Init(p) + [Last(p)];
    if Init(p) == [] {
      assert [] + q == q;
    } else {
      JoinOfAppend(Init(p), [Last(p)], "\n");
      JoinOfAppend(Init(p), q, "\n");
      assert Join(Init(p), "\n") + "\n" + (Last(p) + b) == Join(Init(p), "\n") + "\n" + Last(p) + b;
    }
    assert Join(Init(p) + q, "\n") == a + b;
    SplitOfJoin(Init(p) + q, '\n');
  }

  /** After any pushes the complete lines of all the text so far are handled, each once and in order, and the
      rest is buffered. */
  lemma {:induction false} PushedIsWhole(c: Config, chunks: seq<string>)
    ensures var lines := SplitOn(Flatten(chunks), '\n');
            PushedAll(c, Start(), chunks) == (HandleLines(c, Start().0, Init(lines)), Last(lines))
    decreases |chunks|
  {
    hide SplitOn, HandleLine;
    if chunks == [] {
      SplitOfPlain("", '\n');
      assert Init([""]) == [];
    } else {
      var t := Flatten(Init(chunks));
      var lines := SplitOn(t, '\n');
      var ext := SplitOn(Last(lines) + Last(chunks), '\n');
      assert chunks == Init(chunks) + [Last(chunks)];
      FlattenPush(Init(chunks), Last(chunks));
      PushedIsWhole(c, Init(chunks));
      SplitOfAppend(t, Last(chunks));
      HandleLinesAppend(c, Start().0, Init(lines), Init(ext));
      assert Init(Init(lines) + ext) == Init(lines) + Init(ext);
    }
  }

  /** However the input is divided into pushes, the outcome is that of handling its lines one by one; in
      particular it is the outcome of a single push of the whole input. */
  lemma ChunkIndependent(c: Config, chunks: seq<string>)
    ensures Finished(c, PushedAll(c, Start(), chunks)) == HandleLines(c, Start().0, SplitOn(Flatten(chunks), '\n'))
    ensures Finished(c, PushedAll(c, Start(), chunks)) == Finished(c, Pushed(c, Start(), Flatten(chunks)))
  {
    WholeText(c, chunks);
    OnePush(c, Flatten(chunks));
  }

  lemma OnePush(c: Config, text: string)
    ensures Finished(c, Pushed(c, Start(), text)) == HandleLines(c, Start().0, SplitOn(text, '\n'))
  {
    hide SplitOn, HandleLine, HandleLines, Finished;
    WholeText(c, [text]);
    assert Init([text]) == [];
    assert Flatten([text]) == text + Flatten([]) == text;
  }

  lemma WholeText(c: Config, chunks: seq<string>)
    ensures Finished(c, PushedAll(c, Start(), chunks)) == HandleLines(c, Start().0, SplitOn(Flatten(chunks), '\n'))
  {
    hide SplitOn, HandleLine, HandleLines;
    var lines := SplitOn(Flatten(chunks), '\n');
    PushedIsWhole(c, chunks);
    JoinOfSplit(Flatten(chunks), '\n');
    SplitOfPlain(Last(lines), '\n');
    HandleLinesAppend(c, Start().0, Init(lines), [Last(lines)]);
    assert lines == Init(lines) + [Last(lines)];
  }

  // ---------------------------------------------------------------- emitted texts

  function DeltasOf(emitted: seq<Delta>): string {
    if emitted == [] then "" else DeltasOf(Init(emitted)) + Last(emitted).delta
  }

  /** Every emitted text is the concatenation of all deltas so far, and so is the text collected. */
  predicate Accumulated(p: Progress) {
    && p.text == DeltasOf(p.emitted)
    && forall k :: 0 <= k < |p.emitted| ==>
         p.emitted[k].text == DeltasOf(p.emitted[..k + 1]) && p.emitted[k].delta != ""
  }

  lemma HandleAccumulates(c: Config, p: Progress, parsed: Json)
    requires Accumulated(p)
    ensures Accumulated(Handle(c, p, parsed))
    ensures p.emitted <= Handle(c, p, parsed).emitted
  {
    hide PickSessionId, Trim, IsSpace;
    var q := Handle(c, p, parsed);
    if q.emitted != p.emitted {
      assert Init(q.emitted) == p.emitted && q.emitted[..|q.emitted|] == q.emitted;
      forall k | 0 <= k < |p.emitted|
        ensures q.emitted[k].text == DeltasOf(q.emitted[..k + 1])
      {
        assert q.emitted[..k + 1] == p.emitted[..k + 1];
      }
    }
  }

  lemma {:induction false} RecordsAccumulate(c: Config, p: Progress, records: seq<Json>)
    requires Accumulated(p)
    ensures Accumulated(HandleAll(c, p, records)) && p.emitted <= HandleAll(c, p, records).emitted
    decreases |records|
  {
    hide Handle, Accumulated;
    if records != [] {
      HandleAccumulates(c, p, records[0]);
      RecordsAccumulate(c, Handle(c, p, records[0]), records[1..]);
    }
  }

  /** Whatever the lines hold: emitted texts accumulate, and what was emitted is never taken back. */
  lemma {:induction false} LinesAccumulate(c: Config, p: Progress, lines: seq<string>)
    requires Accumulated(p)
    ensures Accumulated(HandleLines(c, p, lines)) && p.emitted <= HandleLines(c, p, lines).emitted
    decreases |lines|
  {
    hide Accumulated, HandleAll, IsSpace;
    if lines != [] {
      if Trim(lines[0]) != "" {
        RecordsAccumulate(c, p, c.decode(Trim(lines[0])));
      }
      LinesAccumulate(c, HandleLine(c, p, lines[0]), lines[1..]);
    }
  }

  // ---------------------------------------------------------------- what the records say

  predicate IsField(parsed: Json, key: string, value: Json) {
    parsed.Rec? && key in parsed.fields && parsed.fields[key] == value
  }

  /** A record of the streaming dialect that carries the text d: an event that is a content block's text delta. */
  ghost predicate TextDelta(parsed: Json, d: string) {
    && d != "" && IsField(parsed, "type", Str("stream_event"))
    && exists event, delta ::
         && IsField(parsed, "event", event) && IsField(event, "type", Str("content_block_delta"))
         && IsField(event, "delta", delta) && IsField(delta, "type", Str("text_delta"))
         && IsField(delta, "text", Str(d))
  }

  lemma FieldIs(parsed: Json, key: string)
    ensures forall value :: value != Other ==> (IsField(parsed, key, value) <==> parsed.Get(key) == value)
    ensures parsed.Get(key) == Other || IsField(parsed, key, parsed.Get(key))
  {}

  lemma NoFields(key: string)
    ensures Other.Get(key) == Other
  {}

  /** A delta comes from exactly these records, and only in this dialect. */
  lemma DeltaTextIff(parsed: Json, streamJson: bool, d: string)
    ensures DeltaText(parsed, streamJson) == Some(d) <==> streamJson && TextDelta(parsed, d)
  {
    hide Json.Get, IsField;
    var event := parsed.Get("event");
    var delta := event.Get("delta");
    FieldIs(parsed, "type");
    FieldIs(parsed, "event");
    FieldIs(event, "type");
    FieldIs(event, "delta");
    FieldIs(delta, "type");
    FieldIs(delta, "text");
    NoFields("type");
    if streamJson && TextDelta(parsed, d) {
      var ev, de :| && IsField(parsed, "event", ev) && IsField(ev, "type", Str("content_block_delta"))
                    && IsField(ev, "delta", de) && IsField(de, "type", Str("text_delta"))
                    && IsField(de, "text", Str(d));
      NotOther(ev, "type", Str("content_block_delta"));
      NotOther(de, "type", Str("text_delta"));
    }
  }

  lemma NotOther(parsed: Json, key: string, value: Json)
    requires IsField(parsed, key, value)
    ensures parsed != Other
  {}

  /** The field at k is the first that holds a text that is not blank. */
  ghost predicate FirstTextField(parsed: Json, fields: seq<string>, k: nat, v: string) {
    && k < |fields| && TextField(parsed, fields[k], v)
    && forall j, w :: 0 <= j < k ==> !TextField(parsed, fields[j], w)
  }

  /** The field holds a text that, trimmed, is v and not empty. */
  ghost predicate TextField(parsed: Json, field: string, v: string) {
    v != "" && exists s :: IsField(parsed, field, Str(s)) && Trim(s) == v
  }

  lemma TextFieldIs(parsed: Json, field: string, v: string)
    ensures TextField(parsed, field, v) <==>
              parsed.Get(field).Str? && Trim(parsed.Get(field).s) == v && v != ""
  {
    hide Trim;
    if parsed.Get(field).Str? {
      assert IsField(parsed, field, Str(parsed.Get(field).s));
    }
  }

  /** The session id of a record is the trimmed text of the first session id field that has one. */
  lemma {:induction false} SessionIdIff(parsed: Json, fields: seq<string>, v: string)
    ensures PickSessionId(parsed, fields) == Some(v) <==> exists k: nat :: FirstTextField(parsed, fields, k, v)
    decreases |fields|
  {
    hide Trim, TextField, Json.Get;
    if fields != [] {
      var rest := fields[1..];
      SessionIdIff(parsed, rest, v);
      forall w ensures TextField(parsed, fields[0], w) <==>
                         parsed.Get(fields[0]).Str? && Trim(parsed.Get(fields[0]).s) == w && w != "" {
        TextFieldIs(parsed, fields[0], w);
      }
      if k: nat :| FirstTextField(parsed, fields, k, v) {
        if k > 0 {
          assert forall j, w :: 0 <= j < k - 1 ==> !TextField(parsed, rest[j], w) by {
            assert forall j :: 0 <= j < k - 1 ==> rest[j] == fields[j + 1];
          }
          assert FirstTextField(parsed, rest, k - 1, v);
          if parsed.Get(fields[0]).Str? {
            assert !TextField(parsed, fields[0], Trim(parsed.Get(fields[0]).s));
          }
        }
        assert PickSessionId(parsed, fields) == Some(v);
      }
      if PickSessionId(parsed, fields) == Some(v) {
        if TextField(parsed, fields[0], v) {
          assert FirstTextField(parsed, fields, 0, v);
        } else {
          var k: nat :| FirstTextField(parsed, rest, k, v);
          forall j, w | 0 <= j < k + 1 ensures !TextField(parsed, fields[j], w) {
            assert j > 0 ==> fields[j] == rest[j - 1];
          }
          assert FirstTextField(parsed, fields, k + 1, v);
        }
      }
    }
  }

  // ---------------------------------------------------------------- what the records come to

  /** The records of the lines that are not blank, each line trimmed before it is decoded. */
  function RecordsOf(c: Config, lines: seq<string>): seq<Json> {
    if lines == [] then []
    else (if Trim(lines[0]) == "" then [] else c.decode(Trim(lines[0]))) + RecordsOf(c, lines[1..])
  }

  lemma {:induction false} HandleAllAppend(c: Config, p: Progress, a: seq<Json>, b: seq<Json>)
    ensures HandleAll(c, p, a + b) == HandleAll(c, HandleAll(c, p, a), b)
    decreases |a|
  {
    hide Handle;
    if a == [] {
      assert a + b == b;
    } else {
      assert (a + b)[0] == a[0] && (a + b)[1..] == a[1..] + b;
      HandleAllAppend(c, Handle(c, p, a[0]), a[1..], b);
    }
  }

  /** The stream is its records, one after the other. */
  lemma {:induction false} LinesAreRecords(c: Config, p: Progress, lines: seq<string>)
    ensures HandleLines(c, p, lines) == HandleAll(c, p, RecordsOf(c, lines))
    decreases |lines|
  {
    hide HandleAll, Trim;
    if lines == [] {
      NoRecords(c, p);
    } else {
      var first := if Trim(lines[0]) == "" then [] else c.decode(Trim(lines[0]));
      NoRecords(c, p);
      HandleAllAppend(c, p, first, RecordsOf(c, lines[1..]));
      LinesAreRecords(c, HandleLine(c, p, lines[0]), lines[1..]);
    }
  }

  lemma NoRecords(c: Config, p: Progress)
    ensures HandleAll(c, p, []) == p
  {}

  lemma RecordPush(c: Config, p: Progress, records: seq<Json>, r: Json)
    ensures HandleAll(c, p, records + [r]) == Handle(c, HandleAll(c, p, records), r)
  {
    hide Handle;
    HandleAllAppend(c, p, records, [r]);
    assert [r][1..] == [];
  }

  /** The last of the records that name a session. */
  function LastPick(c: Config, records: seq<Json>): Option<string> {
    if records == [] then None
    else OrElse(PickSessionId(Last(records), c.sessionIdFields), LastPick(c, Init(records)))
  }

  /** The first thread id that is a text and not blank; failing that, an empty one if any is a text. */
  function FirstThread(records: seq<Json>): Option<string> {
    if records == [] then None
    else
      var before, thread := FirstThread(Init(records)), Last(records).Get("thread_id");
      if before.GetOr("") != "" || !thread.Str? then before else Some(Trim(thread.s))
  }

  function LastUsage(c: Config, records: seq<Json>): Option<CliUsage> {
    if records == [] then None
    else
      var usage := Last(records).Get("usage");
      OrElse(if usage.Rec? then c.toUsage(usage) else None, LastUsage(c, Init(records)))
  }

  function AllDeltas(c: Config, records: seq<Json>): string {
    if records == [] then "" else AllDeltas(c, Init(records)) + DeltaText(Last(records), c.streamJson).GetOr("")
  }

  /** After any records of a new stream: the text is that of all their deltas; the session is the one named last, and
      only when none is named the first thread; the usage is the last one that could be read. */
  lemma {:induction false} RecordsMean(c: Config, records: seq<Json>)
    ensures var p := HandleAll(c, Start().0, records);
            && p.text == AllDeltas(c, records)
            && p.sessionId == (if LastPick(c, records).Some? then LastPick(c, records) else FirstThread(records))
            && p.usage == LastUsage(c, records)
    decreases |records|
  {
    hide PickSessionId, DeltaText, Trim, Json.Get, HandleAll;
    if records == [] {
      NoRecords(c, Start().0);
    } else {
      var init, r := Init(records), Last(records);
      assert records == init + [r];
      RecordsMean(c, init);
      RecordPush(c, Start().0, init, r);
      PickedIsNotEmpty(c, init);
      PickedIsNotEmpty(c, records);
    }
  }

  lemma {:induction false} PickedIsNotEmpty(c: Config, records: seq<Json>)
    ensures LastPick(c, records).Some? ==> LastPick(c, records).value != ""
    decreases |records|
  {
    hide Trim;
    if records != [] {
      PickedIsNotEmpty(c, Init(records));
      PickNotEmpty(Last(records), c.sessionIdFields);
    }
  }

  lemma {:induction false} PickNotEmpty(parsed: Json, fields: seq<string>)
    ensures PickSessionId(parsed, fields).Some? ==> PickSessionId(parsed, fields).value != ""
  {
    hide Trim;
    if fields != [] {
      PickNotEmpty(parsed, fields[1..]);
    }
  }

  /** A delta is handed on with the session and the usage known once its own record has been read. */
  lemma DeltaCarriesWhatIsKnown(c: Config, p: Progress, r: Json)
    ensures var q := Handle(c, p, r);
            match DeltaText(r, c.streamJson)
            case None => q.emitted == p.emitted && q.text == p.text
            case Some(d) => q.emitted == p.emitted + [Delta(p.text + d, d, q.sessionId, q.usage)]
  {
    hide PickSessionId, DeltaText, Trim, Json.Get;
  }
}
