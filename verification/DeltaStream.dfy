/** Snapshot-to-delta streaming of src/acp/translator.ts: handleDeltaEvent, cut at the await between the thought and
    the text. */
module DeltaStream {
  import opened Text

  /** A content block of a snapshot; a missing text counts as empty. */
  datatype Block = Thinking(thinking: Option<string>) | TextBlock(text: Option<string>) | OtherBlock

  /** A message's content may be missing. */
  type Content = Option<seq<Block>>

  function Thoughts(blocks: seq<Block>): seq<string> {
    if blocks == [] then []
    else (if blocks[0].Thinking? then [blocks[0].thinking.GetOr("")] else []) + Thoughts(blocks[1..])
  }

  function Texts(blocks: seq<Block>): seq<string> {
    if blocks == [] then []
    else (if blocks[0].TextBlock? then [blocks[0].text.GetOr("")] else []) + Texts(blocks[1..])
  }

  datatype Kind = Thought | Message

  /** The snapshot of one kind, before its right end is trimmed. */
  function Raw(c: Content, k: Kind): string {
    if c.None? then "" else Join(if k == Thought then Thoughts(c.value) else Texts(c.value), "\n")
  }

  function Full(c: Content, k: Kind): string { TrimEnd(Raw(c, k)) }

  datatype Chunk = Chunk(kind: Kind, text: string)

  /** The two lengths sent so far, and the chunks sent. */
  datatype Progress = Progress(sentThoughtLength: nat, sentTextLength: nat, sent: seq<Chunk>) {
    function Length(k: Kind): nat { if k == Thought then sentThoughtLength else sentTextLength }
  }

  predicate Sends(p: Progress, c: Content, k: Kind) {
    Full(c, k) != "" && |Full(c, k)| > p.Length(k)
  }

  /** Sends what the snapshot has beyond the length sent so far. */
  function Delivered(p: Progress, c: Content, k: Kind): Progress {
    if !Sends(p, c, k) then p
    else
      var full := Full(c, k);
      Progress(if k == Thought then |full| else p.sentThoughtLength, if k == Message then |full| else p.sentTextLength,
               p.sent + [Chunk(k, full[p.Length(k)..])])
  }

  class PendingStream {
    var sentThoughtLength: nat
    var sentTextLength: nat
    /** The session updates sent for the prompt. */
    var sent: seq<Chunk>

    function View(): Progress reads this { Progress(sentThoughtLength, sentTextLength, sent) }

    constructor ()
      ensures View() == Progress(0, 0, [])
    {
      sentThoughtLength, sentTextLength, sent := 0, 0, [];
    }

    /** handleDeltaEvent up to its first await: paused when a thought was sent, otherwise done with the text too. */
    method BeginDelta(content: Content) returns (paused: bool)
      modifies this
      ensures paused == Sends(old(View()), content, Thought)
      ensures var thought := Delivered(old(View()), content, Thought);
              View() == if paused then thought else Delivered(thought, content, Message)
    {
      hide Full;
      var fullThought := Full(content, Thought);
      if fullThought != "" && |fullThought| > sentThoughtLength {
        var newThought := fullThought[sentThoughtLength..];
        sentThoughtLength := |fullThought|;
        sent := sent + [Chunk(Thought, newThought)];
        return true;
      }
      SendText(content);
      return false;
    }

    /** handleDeltaEvent behind the thought: the length sent is read now, after the await. */
    method SendText(content: Content)
      modifies this
      ensures View() == Delivered(old(View()), content, Message)
    {
      hide Full;
      var fullText := Full(content, Message);
      if fullText == "" || |fullText| <= sentTextLength {
        return;
      }
      var newText := fullText[sentTextLength..];
      sentTextLength := |fullText|;
      sent := sent + [Chunk(Message, newText)];
    }
  }

  // ---------------------------------------------------------------- runs

  /** Handlers begin and, when they paused behind a thought, go on later, in any order. */
  datatype Event = Begin(handler: nat, content: Content) | Resume(handler: nat)

  /** Progress, the handlers that pause, and the history of the snapshots whose part of each kind was handled. */
  datatype State = State(progress: Progress, paused: map<nat, Content>, thoughts: seq<Content>, texts: seq<Content>)

  const START := State(Progress(0, 0, []), map[], [], [])

  function Step(st: State, e: Event): State {
    match e
    case Begin(h, c) =>
      if h in st.paused then st
      else
        var p := Delivered(st.progress, c, Thought);
        if Sends(st.progress, c, Thought) then State(p, st.paused[h := c], st.thoughts + [c], st.texts)
        else State(Delivered(p, c, Message), st.paused, st.thoughts + [c], st.texts + [c])
    case Resume(h) =>
      if h !in st.paused then st
      else State(Delivered(st.progress, st.paused[h], Message), st.paused - {h}, st.thoughts, st.texts + [st.paused[h]])
  }

  function Run(events: seq<Event>): State {
    if events == [] then START else Step(Run(events[..|events| - 1]), events[|events| - 1])
  }

  /** All chunks of a kind, joined in the order sent. */
  function SentText(sent: seq<Chunk>, k: Kind): string {
    if sent == [] then ""
    else SentText(sent[..|sent| - 1], k) + (if sent[|sent| - 1].kind == k then sent[|sent| - 1].text else "")
  }

  /** The longest trimmed snapshot of a kind; the first of equally long ones. */
  function Longest(contents: seq<Content>, k: Kind): string {
    if contents == [] then ""
    else
      var before, last := Longest(contents[..|contents| - 1], k), Full(contents[|contents| - 1], k);
      if |last| > |before| then last else before
  }

  /** Snapshots only extend one another. */
  predicate Comparable(a: Content, b: Content, k: Kind) {
    Raw(a, k) <= Raw(b, k) || Raw(b, k) <= Raw(a, k)
  }

  ghost predicate Extending(contents: set<Content>, k: Kind) {
    forall a, b :: a in contents && b in contents ==> Comparable(a, b, k)
  }

  function Snapshots(events: seq<Event>): set<Content> {
    set i | 0 <= i < |events| && events[i].Begin? :: events[i].content
  }

  /** Trimming the right end keeps the order by prefix. */
  lemma TrimKeepsPrefix(a: string, b: string)
    requires a <= b
    ensures TrimEnd(a) <= TrimEnd(b)
  {
    hide IsSpace;
    var s, t := TrimEnd(a), TrimEnd(b);
    forall k | |t| <= k < |b| ensures IsSpace(b[k]) {
      TrimEndCutsBlank(b, k);
    }
    assert s != "" ==> s[|s| - 1] == b[|s| - 1];
  }

  lemma TrimmedComparable(a: Content, b: Content, k: Kind)
    requires Comparable(a, b, k)
    ensures Full(a, k) <= Full(b, k) || Full(b, k) <= Full(a, k)
  {
    hide Raw;
    if Raw(a, k) <= Raw(b, k) {
      TrimKeepsPrefix(Raw(a, k), Raw(b, k));
    } else {
      TrimKeepsPrefix(Raw(b, k), Raw(a, k));
    }
  }

  /** The longest snapshot is one of them, or empty. */
  lemma {:induction false} LongestIsOne(contents: seq<Content>, k: Kind)
    ensures Longest(contents, k) == ""
         || exists i :: 0 <= i < |contents| && Longest(contents, k) == Full(contents[i], k)
  {
    hide Full;
    if contents != [] {
      LongestIsOne(contents[..|contents| - 1], k);
      var n := |contents| - 1;
      if Longest(contents, k) == Longest(contents[..n], k) && Longest(contents, k) != "" {
        var i :| 0 <= i < n && Longest(contents[..n], k) == Full(contents[..n][i], k);
        assert contents[..n][i] == contents[i];
      }
    }
  }

  lemma SentPush(sent: seq<Chunk>, c: Chunk, k: Kind)
    ensures SentText(sent + [c], k) == SentText(sent, k) + if c.kind == k then c.text else ""
  {
    assert (sent + [c])[..|sent|] == sent;
  }

  /** Everything of a kind that was sent is what the length says, and it is the longest snapshot handled. */
  ghost predicate Conserved(p: Progress, contents: seq<Content>, k: Kind) {
    SentText(p.sent, k) == Longest(contents, k) && p.Length(k) == |Longest(contents, k)|
  }

  lemma LongestPush(contents: seq<Content>, c: Content, k: Kind)
    ensures Longest(contents + [c], k)
         == if |Full(c, k)| > |Longest(contents, k)| then Full(c, k) else Longest(contents, k)
  {
    hide Full;
    assert (contents + [c])[..|contents|] == contents;
  }

  lemma LongestIsPrefix(contents: seq<Content>, c: Content, k: Kind)
    requires forall i :: 0 <= i < |contents| ==> Comparable(contents[i], c, k)
    ensures |Longest(contents, k)| < |Full(c, k)| ==> Longest(contents, k) <= Full(c, k)
  {
    hide Full, Comparable, Longest;
    LongestIsOne(contents, k);
    if Longest(contents, k) != "" {
      var i :| 0 <= i < |contents| && Longest(contents, k) == Full(contents[i], k);
      TrimmedComparable(contents[i], c, k);
    }
  }

  lemma DeliverConserves(p: Progress, contents: seq<Content>, c: Content, k: Kind)
    requires Conserved(p, contents, k)
    requires forall i :: 0 <= i < |contents| ==> Comparable(contents[i], c, k)
    ensures Conserved(Delivered(p, c, k), contents + [c], k)
  {
    hide Full, Comparable, Longest;
    LongestPush(contents, c, k);
    if Sends(p, c, k) {
      var full, longest := Full(c, k), Longest(contents, k);
      LongestIsPrefix(contents, c, k);
      assert longest + full[|longest|..] == full;
      SentPush(p.sent, Chunk(k, full[p.Length(k)..]), k);
    }
  }

  lemma DeliverLeavesOther(p: Progress, contents: seq<Content>, c: Content, k: Kind, other: Kind)
    requires Conserved(p, contents, other) && k != other
    ensures Conserved(Delivered(p, c, k), contents, other)
  {
    hide Full, Longest;
    if Sends(p, c, k) {
      SentPush(p.sent, Chunk(k, Full(c, k)[p.Length(k)..]), other);
    }
  }

  /** The handled and the paused snapshots are among those that arrived. */
  ghost predicate Arrived(st: State, all: set<Content>) {
    && (forall i :: 0 <= i < |st.thoughts| ==> st.thoughts[i] in all)
    && (forall i :: 0 <= i < |st.texts| ==> st.texts[i] in all)
    && (forall h :: h in st.paused ==> st.paused[h] in all)
  }

  lemma StepConserves(st: State, e: Event, all: set<Content>)
    requires Arrived(st, all) && (e.Begin? ==> e.content in all)
    requires Extending(all, Thought) && Extending(all, Message)
    requires Conserved(st.progress, st.thoughts, Thought) && Conserved(st.progress, st.texts, Message)
    ensures var next := Step(st, e);
            && Arrived(next, all)
            && Conserved(next.progress, next.thoughts, Thought) && Conserved(next.progress, next.texts, Message)
  {
    hide Conserved, Delivered, Comparable, Sends;
    var p := st.progress;
    match e
    case Begin(h, c) =>
      DeliverConserves(p, st.thoughts, c, Thought);
      DeliverLeavesOther(p, st.texts, c, Thought, Message);
      var q := Delivered(p, c, Thought);
      DeliverConserves(q, st.texts, c, Message);
      DeliverLeavesOther(q, st.thoughts + [c], c, Message, Thought);
    case Resume(h) =>
      if h in st.paused {
        DeliverConserves(p, st.texts, st.paused[h], Message);
        DeliverLeavesOther(p, st.thoughts, st.paused[h], Message, Thought);
      }
  }

  /** Streaming conservation: when the snapshots of a prompt only extend one another, the message chunks sent join
      to the longest trimmed text handled so far, and likewise the thoughts, however handlers interleave. */
  lemma {:induction false} StreamConserves(events: seq<Event>, all: set<Content>)
    requires Snapshots(events) <= all && Extending(all, Thought) && Extending(all, Message)
    ensures var st := Run(events);
            && Arrived(st, all)
            && Conserved(st.progress, st.thoughts, Thought) && Conserved(st.progress, st.texts, Message)
  {
    hide Extending, Step;
    if events == [] {
      NothingSent();
    } else {
      var n := |events| - 1;
      assert Snapshots(events[..n]) <= Snapshots(events) by {
        assert forall i :: 0 <= i < n ==> events[..n][i] == events[i];
      }
      assert events[n].Begin? ==> events[n].content in Snapshots(events);
      StreamConserves(events[..n], all);
      StepConserves(Run(events[..n]), events[n], all);
    }
  }

  lemma NothingSent()
    ensures Arrived(START, {}) && Conserved(START.progress, [], Thought) && Conserved(START.progress, [], Message)
  {}

  /** Without that discipline: what has been sent joins to the new snapshot exactly when it was a prefix of it. */
  lemma DeliveryIsExactIff(p: Progress, c: Content, k: Kind)
    requires |SentText(p.sent, k)| == p.Length(k) && Sends(p, c, k)
    ensures SentText(Delivered(p, c, k).sent, k) == Full(c, k) <==> SentText(p.sent, k) <= Full(c, k)
  {
    hide Full;
    var full, before := Full(c, k), SentText(p.sent, k);
    SentPush(p.sent, Chunk(k, full[p.Length(k)..]), k);
    assert (before + full[|before|..])[..|before|] == before;
    if before <= full {
      assert before + full[|before|..] == full;
    }
  }

  // ---------------------------------------------------------------- snapshots

  /** What a block has to say of a kind; None when it is of another. */
  function Said(b: Block, k: Kind): Option<string> {
    match b
    case Thinking(t) => if k == Thought then Some(t.GetOr("")) else None
    case TextBlock(t) => if k == Message then Some(t.GetOr("")) else None
    case OtherBlock => None
  }

  function SaidBy(blocks: seq<Block>, k: Kind): seq<string> {
    if k == Thought then Thoughts(blocks) else Texts(blocks)
  }

  lemma {:induction false} SaidPush(blocks: seq<Block>, b: Block, k: Kind)
    ensures SaidBy(blocks + [b], k) == SaidBy(blocks, k) + if Said(b, k).Some? then [Said(b, k).value] else []
  {
    if blocks == [] {
      assert [b][1..] == [];
    } else {
      assert (blocks + [b])[0] == blocks[0] && (blocks + [b])[1..] == blocks[1..] + [b];
      SaidPush(blocks[1..], b, k);
    }
  }

  lemma {:induction false} JoinPush(parts: seq<string>, x: string)
    ensures Join(parts + [x], "\n") == if parts == [] then x else Join(parts, "\n") + "\n" + x
  {
    if parts == [] {
      assert [] + [x] == [x];
    } else {
      JoinOfAppend(parts, [x], "\n");
    }
  }

  lemma {:induction false} SomeSaid(blocks: seq<Block>, k: Kind)
    ensures SaidBy(blocks, k) != [] <==> exists i :: 0 <= i < |blocks| && Said(blocks[i], k).Some?
  {
    if blocks != [] {
      SomeSaid(blocks[1..], k);
      if i :| 0 <= i < |blocks| && Said(blocks[i], k).Some? {
        assert i > 0 ==> blocks[1..][i - 1] == blocks[i];
      }
      if i :| 0 <= i < |blocks[1..]| && Said(blocks[1..][i], k).Some? {
        assert blocks[i + 1] == blocks[1..][i];
      }
    }
  }

  /** What one more block adds to a snapshot: nothing, when it is of the other kind or of none; otherwise its text, a
      missing one as empty, behind a line feed unless it is the first of its kind. */
  lemma SnapshotPush(blocks: seq<Block>, b: Block, k: Kind)
    ensures Raw(None, k) == "" && Raw(Some([]), k) == ""
    ensures var before, after := Raw(Some(blocks), k), Raw(Some(blocks + [b]), k);
            match Said(b, k)
            case None => after == before
            case Some(text) =>
              if exists i :: 0 <= i < |blocks| && Said(blocks[i], k).Some? then after == before + "\n" + text
              else before == "" && after == text
  {
    hide Said, Join, SaidBy;
    SaidPush(blocks, b, k);
    SomeSaid(blocks, k);
    JoinOfNone();
    if Said(b, k).Some? {
      JoinPush(SaidBy(blocks, k), Said(b, k).value);
    }
    RawIsJoin(blocks, k);
    RawIsJoin(blocks + [b], k);
    RawIsJoin([], k);
    SomeSaid([], k);
    assert SaidBy(blocks, k) + [] == SaidBy(blocks, k);
  }

  lemma RawIsJoin(blocks: seq<Block>, k: Kind)
    ensures Raw(Some(blocks), k) == Join(SaidBy(blocks, k), "\n")
  {}

  lemma JoinOfNone()
    ensures Join([], "\n") == ""
  {}

  /** The same block with more text at its end. */
  predicate BlockGrows(a: Block, b: Block) {
    && (a.Thinking? <==> b.Thinking?) && (a.TextBlock? <==> b.TextBlock?)
    && forall k :: Said(a, k).Some? && Said(b, k).Some? ==> Said(a, k).value <= Said(b, k).value
  }

  lemma {:induction false} MoreBlocks(a: seq<Block>, more: seq<Block>, k: Kind)
    ensures Raw(Some(a), k) <= Raw(Some(a + more), k)
  {
    hide Raw, Said;
    if more == [] {
      assert a + more == a;
    } else {
      var n := |more| - 1;
      MoreBlocks(a, more[..n], k);
      SnapshotPush(a + more[..n], more[n], k);
      assert a + more == a + more[..n] + [more[n]];
    }
  }

  /** Snapshots of a message that grows, by more text in its last block and by more blocks, only extend one another:
      what the conservation of the stream asks for. */
  lemma GrowingIsExtending(init: seq<Block>, a: Block, b: Block, more: seq<Block>, k: Kind)
    requires BlockGrows(a, b)
    ensures Comparable(Some(init + [a]), Some(init + [b] + more), k)
  {
    hide Raw, Said;
    SnapshotPush(init, a, k);
    SnapshotPush(init, b, k);
    SameKind(a, b, k);
    MoreBlocks(init + [b], more, k);
    assert Raw(Some(init + [a]), k) <= Raw(Some(init + [b]), k);
  }

  lemma SameKind(a: Block, b: Block, k: Kind)
    requires BlockGrows(a, b)
    ensures Said(a, k).Some? <==> Said(b, k).Some?
    ensures Said(a, k).Some? ==> Said(a, k).value <= Said(b, k).value
  {}

  /** Of one snapshot the thought goes first: a handler that has a thought to send sends that alone and pauses, and
      the text comes when it goes on. */
  lemma ThoughtFirst(st: State, h: nat, c: Content)
    requires h !in st.paused
    ensures var next := Step(st, Begin(h, c));
            if |Full(c, Thought)| > st.progress.sentThoughtLength then
              && next.paused == st.paused[h := c]
              && |next.progress.sent| == |st.progress.sent| + 1 && st.progress.sent <= next.progress.sent
              && next.progress.sent[|st.progress.sent|].kind == Thought
            else
              next.paused == st.paused && forall i :: |st.progress.sent| <= i < |next.progress.sent| ==>
                                                        next.progress.sent[i].kind == Message
    ensures var begun := Step(st, Begin(h, c));
            h in begun.paused ==>
              var after := Step(begun, Resume(h));
              forall i :: |begun.progress.sent| <= i < |after.progress.sent| ==> after.progress.sent[i].kind == Message
  {
    hide Full;
  }

  /** What is streamed of a snapshot is its text up to the white space at its end. */
  lemma FullIsTrimmed(c: Content, k: Kind)
    ensures Full(c, k) <= Raw(c, k)
    ensures Full(c, k) != "" ==> !IsSpace(Full(c, k)[|Full(c, k)| - 1])
    ensures Blank(Raw(c, k)[|Full(c, k)|..])
  {
    hide IsSpace, Raw;
    var raw, full := Raw(c, k), Full(c, k);
    forall i | 0 <= i < |raw| - |full| ensures IsSpace(raw[|full|..][i]) {
      TrimEndCutsBlank(raw, |full| + i);
    }
  }
}
