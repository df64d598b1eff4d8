/** Process output buffers of src/agents/bash-process-registry.ts. Lengths count UTF-16 code units. */
module ProcessRegistry {
  import opened Text

  const DEFAULT_PENDING_OUTPUT_CHARS: nat := 30_000
  const TAIL_CHARS: nat := 2000

  datatype Stream = Stdout | Stderr

  function Min(a: nat, b: nat): nat { if a < b then a else b }

  /** The last max characters of a text; `tail` and `trimWithCap` of the source. */
  function TrimWithCap(text: string, max: nat): (r: string)
    ensures |r| == Min(|text|, max)
  {
    if |text| <= max then text else text[|text| - max..]
  }

  lemma TrimShort(text: string, max: nat)
    requires |text| <= max
    ensures TrimWithCap(text, max) == text
  {}

  /** A text trimmed on the way is trimmed as if it had been kept whole. */
  lemma TrimOnTheWay(h: string, x: string, max: nat)
    ensures TrimWithCap(TrimWithCap(h, max) + x, max) == TrimWithCap(h + x, max)
  {
    var a, b := TrimWithCap(h, max) + x, h + x;
    assert a == b[|b| - |a|..];
    assert |a| > max ==> a[|a| - max..] == b[|b| - max..];
  }

  /** The limits of a session. */
  datatype Limits = Limits(maxOutputChars: nat, pendingMaxOutputChars: Option<nat>) {
    function PendingCap(): nat {
      Min(pendingMaxOutputChars.GetOr(DEFAULT_PENDING_OUTPUT_CHARS), maxOutputChars)
    }
  }

  /** What the buffers of a session hold. */
  datatype Output = Output(stdout: string, stderr: string, aggregated: string, total: nat, truncated: bool) {
    function Pending(s: Stream): string {
      if s == Stdout then stdout else stderr
    }
  }

  const NO_OUTPUT := Output("", "", "", 0, false)

  function Appended(l: Limits, o: Output, s: Stream, chunk: string): Output {
    var pending := TrimWithCap(o.Pending(s) + chunk, l.PendingCap());
    var aggregated := TrimWithCap(o.aggregated + chunk, l.maxOutputChars);
    var truncated := || o.truncated
                     || |o.Pending(s)| + |chunk| > l.PendingCap()
                     || |o.aggregated| + |chunk| > l.maxOutputChars;
    Output(if s == Stdout then pending else o.stdout, if s == Stderr then pending else o.stderr,
           aggregated, o.total + |chunk|, truncated)
  }

  function Chars(buffer: seq<string>): nat {
    |Flatten(buffer)|
  }

  method SumPendingChars(buffer: seq<string>) returns (total: nat)
    ensures total == Chars(buffer)
  {
    total := 0;
    for k := 0 to |buffer|
      invariant total == Chars(buffer[..k])
    {
      assert buffer[..k + 1] == buffer[..k] + [buffer[k]];
      FlattenPush(buffer[..k], buffer[k]);
      total := total + |buffer[k]|;
    }
    assert buffer[..|buffer|] == buffer;
  }

  /** The last chunk alone fills the cap. */
  predicate LastFills(buffer: seq<string>, cap: nat) {
    buffer != [] && buffer[|buffer| - 1] != "" && |buffer[|buffer| - 1]| >= cap
  }

  /** How many characters are dropped from the front, given a count of what is pending that may be wrong. */
  function Overflow(buffer: seq<string>, pendingChars: nat, cap: nat): (n: nat)
    ensures n <= Chars(buffer)
  {
    if pendingChars <= cap then 0
    else if LastFills(buffer, cap) then Chars(buffer) - Min(cap, Chars(buffer))
    else Min(pendingChars - cap, Chars(buffer))
  }

  /** Drops whole chunks from the front while enough is left without them, then cuts into the first. With a count that
      is right, what is left is the end of the text that the cap allows. */
  method CapPendingBuffer(buffer: seq<string>, pendingChars: nat, cap: nat) returns (capped: seq<string>, chars: nat)
    ensures Flatten(capped) == Flatten(buffer)[Overflow(buffer, pendingChars, cap)..]
    ensures chars == if pendingChars > cap && LastFills(buffer, cap) then cap
                     else pendingChars - Overflow(buffer, pendingChars, cap)
    ensures pendingChars == Chars(buffer) ==>
              Flatten(capped) == TrimWithCap(Flatten(buffer), cap) && chars == Chars(capped)
  {
    hide Flatten;
    if pendingChars <= cap {
      return buffer, pendingChars;
    }
    if buffer != [] {
      var last := buffer[|buffer| - 1];
      FlattenLast(buffer);
      if last != "" && |last| >= cap {
        FlattenOne(last[|last| - cap..]);
        return [last[|last| - cap..]], cap;
      }
    }
    capped, chars := DropFront(buffer, pendingChars, cap);
  }

  /** The shifting loop, and the cut into the chunk it stops at. */
  method DropFront(buffer: seq<string>, pendingChars: nat, cap: nat) returns (capped: seq<string>, chars: nat)
    requires cap < pendingChars
    ensures var n := Min(pendingChars - cap, Chars(buffer));
            Flatten(capped) == Flatten(buffer)[n..] && chars == pendingChars - n
  {
    hide Flatten;
    ghost var text := Flatten(buffer);
    capped, chars := buffer, pendingChars;
    while capped != [] && chars - |capped[0]| >= cap
      invariant cap <= chars <= pendingChars <= chars + |text|
      invariant Flatten(capped) == text[pendingChars - chars..]
      decreases |capped|
    {
      CutHead(capped, text, pendingChars - chars, |capped[0]|);
      chars := chars - |capped[0]|;
      capped := capped[1..];
    }
    if capped == [] {
      FlattenNone();
    } else {
      CutHead(capped, text, pendingChars - chars, chars - cap);
      if chars > cap {
        var overflow := chars - cap;
        capped := [capped[0][overflow..]] + capped[1..];
        chars := cap;
      }
    }
  }

  /** What is left of a text when its first chunk is cut or dropped. */
  lemma CutHead(buffer: seq<string>, text: string, n: nat, cut: nat)
    requires n <= |text| && Flatten(buffer) == text[n..] && buffer != [] && cut <= |buffer[0]|
    ensures n + cut <= |text| && Flatten([buffer[0][cut..]] + buffer[1..]) == text[n + cut..]
    ensures cut == |buffer[0]| ==> Flatten(buffer[1..]) == text[n + cut..]
  {
    hide Flatten;
    var rest := Flatten(buffer[1..]);
    FlattenHead(buffer);
    FlattenHead([buffer[0][cut..]] + buffer[1..]);
    assert ([buffer[0][cut..]] + buffer[1..])[1..] == buffer[1..];
    assert text[n + cut..] == text[n..][cut..];
    assert (buffer[0] + rest)[cut..] == buffer[0][cut..] + rest;
  }

  lemma FlattenNone()
    ensures Flatten<char>([]) == []
  {}

  lemma FlattenOne(x: string)
    ensures Flatten([x]) == x
  {
    FlattenPush([], x);
    assert [] + [x] == [x];
  }

  lemma FlattenHead(buffer: seq<string>)
    requires buffer != []
    ensures Flatten(buffer) == buffer[0] + Flatten(buffer[1..])
  {}

  lemma FlattenLast(buffer: seq<string>)
    requires buffer != []
    ensures Flatten(buffer) == Flatten(buffer[..|buffer| - 1]) + buffer[|buffer| - 1]
  {
    FlattenPush(buffer[..|buffer| - 1], buffer[|buffer| - 1]);
    assert buffer[..|buffer| - 1] + [buffer[|buffer| - 1]] == buffer;
  }

  class ProcessSession {
    const limits: Limits
    var totalOutputChars: nat
    var pendingStdout: seq<string>
    var pendingStderr: seq<string>
    /** None when the session was made without a count. */
    var pendingStdoutChars: Option<nat>
    var pendingStderrChars: Option<nat>
    var aggregated: string
    var tail: string
    var truncated: bool

    predicate Valid() reads this {
      && (pendingStdoutChars.Some? ==> pendingStdoutChars.value == Chars(pendingStdout))
      && (pendingStderrChars.Some? ==> pendingStderrChars.value == Chars(pendingStderr))
      && tail == TrimWithCap(aggregated, TAIL_CHARS)
    }

    function View(): Output reads this {
      Output(Flatten(pendingStdout), Flatten(pendingStderr), aggregated, totalOutputChars, truncated)
    }

    constructor (limits: Limits)
      ensures Valid() && View() == NO_OUTPUT && this.limits == limits
    {
      this.limits := limits;
      pendingStdout, pendingStderr, pendingStdoutChars, pendingStderrChars := [], [], Some(0), Some(0);
      totalOutputChars, aggregated, tail, truncated := 0, "", "", false;
    }

    /** Counts what is pending where the count is missing. */
    method EnsureCounts()
      requires Valid()
      modifies this`pendingStdoutChars, this`pendingStderrChars
      ensures Valid() && pendingStdoutChars.Some? && pendingStderrChars.Some?
    {
      if pendingStdoutChars.None? {
        var total := SumPendingChars(pendingStdout);
        pendingStdoutChars := Some(total);
      }
      if pendingStderrChars.None? {
        var total := SumPendingChars(pendingStderr);
        pendingStderrChars := Some(total);
      }
    }

    method AppendOutput(stream: Stream, chunk: string)
      requires Valid()
      modifies this
      ensures Valid()
      ensures View() == Appended(limits, old(View()), stream, chunk)
      ensures pendingStdoutChars == Some(|View().stdout|) && pendingStderrChars == Some(|View().stderr|)
    {
      hide Flatten, TrimWithCap;
      EnsureCounts();
      var buffer := if stream == Stdout then pendingStdout else pendingStderr;
      var bufferChars := if stream == Stdout then pendingStdoutChars.value else pendingStderrChars.value;
      var pendingCap := limits.PendingCap();
      FlattenPush(buffer, chunk);
      buffer := buffer + [chunk];
      var pendingChars := bufferChars + |chunk|;
      if pendingChars > pendingCap {
        truncated := true;
        buffer, pendingChars := CapPendingBuffer(buffer, pendingChars, pendingCap);
      } else {
        TrimShort(Flatten(buffer), pendingCap);
      }
      if stream == Stdout {
        pendingStdout, pendingStdoutChars := buffer, Some(pendingChars);
      } else {
        pendingStderr, pendingStderrChars := buffer, Some(pendingChars);
      }
      totalOutputChars := totalOutputChars + |chunk|;
      var trimmed := TrimWithCap(aggregated + chunk, limits.maxOutputChars);
      truncated := truncated || |trimmed| < |aggregated| + |chunk|;
      aggregated := trimmed;
      tail := TrimWithCap(aggregated, TAIL_CHARS);
    }

    method DrainSession() returns (stdout: string, stderr: string)
      requires Valid()
      modifies this
      ensures Valid()
      ensures stdout == old(View()).stdout && stderr == old(View()).stderr
      ensures View() == old(View()).(stdout := "", stderr := "")
    {
      stdout, stderr := Flatten(pendingStdout), Flatten(pendingStderr);
      pendingStdout, pendingStderr, pendingStdoutChars, pendingStderrChars := [], [], Some(0), Some(0);
    }
  }

  // ---------------------------------------------------------------- runs

  datatype Event = Append(stream: Stream, chunk: string) | Drain

  function Step(l: Limits, o: Output, e: Event): Output {
    match e
    case Append(s, chunk) => Appended(l, o, s, chunk)
    case Drain => o.(stdout := "", stderr := "")
  }

  function Run(l: Limits, events: seq<Event>): Output {
    if events == [] then NO_OUTPUT
    else Step(l, Run(l, events[..|events| - 1]), events[|events| - 1])
  }

  /** Everything written, to one stream or (None) to both, interleaved as it came. */
  function Written(events: seq<Event>, s: Option<Stream>): string {
    if events == [] then ""
    else
      var before, e := Written(events[..|events| - 1], s), events[|events| - 1];
      if e.Append? && (s == None || s == Some(e.stream)) then before + e.chunk else before
  }

  /** What was written to a stream since it was last drained. */
  function SinceDrain(events: seq<Event>, s: Stream): string {
    if events == [] then ""
    else
      var before, e := SinceDrain(events[..|events| - 1], s), events[|events| - 1];
      if e.Drain? then "" else if e.stream == s then before + e.chunk else before
  }

  /** What the drains of the run returned for a stream, joined. */
  function DrainedText(l: Limits, events: seq<Event>, s: Stream): string {
    if events == [] then ""
    else
      var init := events[..|events| - 1];
      if events[|events| - 1].Drain? then DrainedText(l, init, s) + Run(l, init).Pending(s) else DrainedText(l, init, s)
  }

  /** What one more event adds to the run and to its histories. */
  lemma After(l: Limits, init: seq<Event>, e: Event, s: Stream)
    ensures var events := init + [e];
            && Run(l, events) == Step(l, Run(l, init), e)
            && SinceDrain(events, s)
                 == (if e.Drain? then ""
                     else if e.stream == s then SinceDrain(init, s) + e.chunk else SinceDrain(init, s))
            && Written(events, None) == (if e.Append? then Written(init, None) + e.chunk else Written(init, None))
            && Written(events, Some(s))
                 == (if e.Append? && e.stream == s then Written(init, Some(s)) + e.chunk else Written(init, Some(s)))
            && DrainedText(l, events, s)
                 == (if e.Drain? then DrainedText(l, init, s) + Run(l, init).Pending(s) else DrainedText(l, init, s))
  {
    hide Step;
    assert (init + [e])[..|init|] == init;
  }

  /** After any run every buffer holds exactly the end of the plain history that its cap allows. */
  lemma {:induction false} BuffersAreHistory(l: Limits, events: seq<Event>, s: Stream)
    ensures var o := Run(l, events);
            && o.Pending(s) == TrimWithCap(SinceDrain(events, s), l.PendingCap())
            && o.aggregated == TrimWithCap(Written(events, None), l.maxOutputChars)
            && o.total == |Written(events, None)|
  {
    if events != [] {
      hide Run, SinceDrain, Written, TrimWithCap;
      var init, e := events[..|events| - 1], events[|events| - 1];
      assert events == init + [e];
      BuffersAreHistory(l, init, s);
      After(l, init, e, s);
      if e.Append? {
        TrimOnTheWay(Written(init, None), e.chunk, l.maxOutputChars);
        TrimOnTheWay(SinceDrain(init, s), e.chunk, l.PendingCap());
      } else {
        TrimShort("", l.PendingCap());
      }
    }
  }

  /** What a stream still has: the texts drained so far, then the pending one. */
  function Kept(l: Limits, events: seq<Event>, s: Stream): string {
    DrainedText(l, events, s) + Run(l, events).Pending(s)
  }

  /** The step drops output of the stream: it appends past the cap. */
  predicate Drops(l: Limits, init: seq<Event>, e: Event, s: Stream) {
    e.Append? && e.stream == s && |Run(l, init).Pending(s)| + |e.chunk| > l.PendingCap()
  }

  lemma KeptAfter(l: Limits, init: seq<Event>, e: Event, s: Stream)
    ensures var chunk := if e.Append? && e.stream == s then e.chunk else "";
            && Written(init + [e], Some(s)) == Written(init, Some(s)) + chunk
            && (!Drops(l, init, e, s) ==> Kept(l, init + [e], s) == Kept(l, init, s) + chunk)
            && (Drops(l, init, e, s) ==> |Kept(l, init + [e], s)| < |Kept(l, init, s) + chunk|)
  {
    hide Run, Written, DrainedText, TrimWithCap;
    After(l, init, e, s);
    var d, p := DrainedText(l, init, s), Run(l, init).Pending(s);
    if e.Append? && e.stream == s {
      assert d + (p + e.chunk) == (d + p) + e.chunk;
      if !Drops(l, init, e, s) {
        TrimShort(p + e.chunk, l.PendingCap());
      }
    } else {
      assert d + p + "" == d + p;
    }
  }

  /** A stream has everything that was written to it, or it has less. */
  lemma {:induction false} KeptOrShorter(l: Limits, events: seq<Event>, s: Stream)
    ensures Kept(l, events, s) == Written(events, Some(s)) || |Kept(l, events, s)| < |Written(events, Some(s))|
  {
    if events != [] {
      hide Kept, Written, Drops;
      var init, e := events[..|events| - 1], events[|events| - 1];
      assert events == init + [e];
      KeptOrShorter(l, init, s);
      KeptAfter(l, init, e, s);
    }
  }

  /** The truncation flag tells exactly whether output was lost: from a stream between drains, or from the
      aggregate. */
  lemma {:induction false} TruncatedIffLost(l: Limits, events: seq<Event>)
    ensures !Run(l, events).truncated <==>
              && Kept(l, events, Stdout) == Written(events, Some(Stdout))
              && Kept(l, events, Stderr) == Written(events, Some(Stderr))
              && Run(l, events).aggregated == Written(events, None)
  {
    if events != [] {
      hide Kept, Written, Run, TrimWithCap;
      var init, e := events[..|events| - 1], events[|events| - 1];
      assert events == init + [e];
      TruncatedIffLost(l, init);
      After(l, init, e, Stdout);
      forall s ensures (Kept(l, events, s) == Written(events, Some(s)) <==>
                        Kept(l, init, s) == Written(init, Some(s)) && !Drops(l, init, e, s)) {
        KeptOrShorter(l, init, s);
        KeptAfter(l, init, e, s);
      }
      AggregateAfter(l, init, e);
    }
  }

  lemma AggregateAfter(l: Limits, init: seq<Event>, e: Event)
    ensures Run(l, init + [e]).aggregated == Written(init + [e], None) <==>
              && Run(l, init).aggregated == Written(init, None)
              && (e.Append? ==> |Run(l, init).aggregated| + |e.chunk| <= l.maxOutputChars)
  {
    hide Written, Run, TrimWithCap;
    After(l, init, e, Stdout);
    BuffersAreHistory(l, init, Stdout);
    BuffersAreHistory(l, init + [e], Stdout);
    var w := Written(init, None);
    if e.Append? && |w| + |e.chunk| <= l.maxOutputChars {
      TrimShort(w, l.maxOutputChars);
      TrimShort(w + e.chunk, l.maxOutputChars);
    }
  }

  /** The limits: what is pending is the longest end of what was written since the last drain that exceeds neither the
      limit for pending output, which may be the default, nor that for all output. */
  lemma PendingIsLongestWithinLimits(l: Limits, events: seq<Event>, s: Stream)
    ensures var h, p := SinceDrain(events, s), Run(l, events).Pending(s);
            var limit := match l.pendingMaxOutputChars case Some(n) => n case None => 30_000;
            && |p| <= |h| && p == h[|h| - |p|..]
            && |p| <= limit && |p| <= l.maxOutputChars
            && (|p| == |h| || |p| == limit || |p| == l.maxOutputChars)
  {
    hide Run, SinceDrain;
    BuffersAreHistory(l, events, s);
  }

  /** The same of the aggregate, which the limit for pending output does not touch. */
  lemma AggregateIsLongestWithinLimit(l: Limits, events: seq<Event>)
    ensures var h, g := Written(events, None), Run(l, events).aggregated;
            && |g| <= |h| && g == h[|h| - |g|..] && |g| <= l.maxOutputChars
            && (|g| == |h| || |g| == l.maxOutputChars)
  {
    hide Run, Written;
    BuffersAreHistory(l, events, Stdout);
  }
}
