/** The per-sender message aggregator of src/feishu-service.ts. */
module MessageAggregator {

  const AGGREGATE_IMAGE_EXTRA_WINDOW_MS := 2_000

  datatype Config = Config(windowMs: int, maxMessages: int, maxWindowMs: int)

  const DEFAULT_CONFIG := Config(3_000, 5, 10_000)

  datatype Item = Item(text: string, images: nat)

  datatype Source = Source(
    senderId: string, senderName: string, sessionKey: string, chatId: string, chatType: string, accountId: string)

  datatype AggregatedMessage = AggregatedMessage(source: Source, items: seq<Item>)

  function ExtraMs(item: Item): int {
    if item.images > 0 then AGGREGATE_IMAGE_EXTRA_WINDOW_MS else 0
  }

  /** The three maps, the order in which the buffers were created, and the batches handed to onSubmit.
      A timer is represented by its deadline; a timer that was cleared or has fired is not in the map. */
  datatype State = State(
    timers: map<string, int>, buffers: map<string, AggregatedMessage>, windowStarts: map<string, int>,
    order: seq<string>, submitted: seq<AggregatedMessage>)

  const IDLE := State(map[], map[], map[], [], [])

  function Without(order: seq<string>, key: string): seq<string> {
    if order == [] then []
    else if order[0] == key then Without(order[1..], key)
    else [order[0]] + Without(order[1..], key)
  }

  function Flush(st: State, key: string): State {
    State(st.timers - {key}, st.buffers - {key}, st.windowStarts - {key}, Without(st.order, key),
          if key in st.buffers && st.buffers[key].items != [] then st.submitted + [st.buffers[key]] else st.submitted)
  }

  function FlushKeys(st: State, keys: seq<string>): State
    decreases |keys|
  {
    if keys == [] then st else FlushKeys(Flush(st, keys[0]), keys[1..])
  }

  /** A push at time `now`: the clock is read once per step. */
  function Pushed(c: Config, st: State, now: int, item: Item, source: Source, immediate: bool): State {
    var key := source.senderId;
    var deadline := now + c.windowMs + ExtraMs(item);
    if key in st.buffers then
      var extended := st.buffers[key].(items := st.buffers[key].items + [item]);
      var next := st.(buffers := st.buffers[key := extended]);
      var start := if key in st.windowStarts then st.windowStarts[key] else now;
      if immediate || |extended.items| >= c.maxMessages || now - start >= c.maxWindowMs
      then Flush(next, key)
      else next.(timers := st.timers[key := deadline])
    else
      var next := st.(buffers := st.buffers[key := AggregatedMessage(source, [item])],
                      windowStarts := st.windowStarts[key := now], order := st.order + [key]);
      if immediate then Flush(next, key) else next.(timers := st.timers[key := deadline])
  }

  class MessageAggregator {
    const config: Config
    var timers: map<string, int>
    var buffers: map<string, AggregatedMessage>
    var windowStarts: map<string, int>
    var order: seq<string>
    var submitted: seq<AggregatedMessage>

    function View(): State reads this {
      State(timers, buffers, windowStarts, order, submitted)
    }

    constructor (config: Config)
      ensures View() == IDLE && this.config == config
    {
      this.config := config;
      timers, buffers, windowStarts, order, submitted := map[], map[], map[], [], [];
    }

    method Push(now: int, item: Item, source: Source, immediate: bool)
      modifies this
      ensures View() == Pushed(config, old(View()), now, item, source, immediate)
    {
      var key := source.senderId;
      if key in buffers {
        buffers := buffers[key := buffers[key].(items := buffers[key].items + [item])];
        var windowStart := if key in windowStarts then windowStarts[key] else now;
        var elapsed := now - windowStart;
        if immediate || |buffers[key].items| >= config.maxMessages || elapsed >= config.maxWindowMs {
          FlushKey(key);
          return;
        }
        ResetTimer(now, key, if item.images > 0 then AGGREGATE_IMAGE_EXTRA_WINDOW_MS else 0);
      } else {
        buffers := buffers[key := AggregatedMessage(source, [item])];
        order := order + [key];
        windowStarts := windowStarts[key := now];
        if immediate {
          FlushKey(key);
          return;
        }
        ResetTimer(now, key, if item.images > 0 then AGGREGATE_IMAGE_EXTRA_WINDOW_MS else 0);
      }
    }

    method FlushAll()
      modifies this
      ensures View() == FlushKeys(old(View()), old(order))
    {
      var keys := order;
      for k := 0 to |keys|
        invariant FlushKeys(View(), keys[k..]) == FlushKeys(old(View()), keys)
      {
        assert keys[k..][1..] == keys[k + 1..];
        FlushKey(keys[k]);
      }
    }

    method FlushKey(key: string)
      modifies this
      ensures View() == Flush(old(View()), key)
    {
      if key in timers {
        timers := timers - {key};
      }
      var found := key in buffers;
      var aggregated := if found then buffers[key] else AggregatedMessage(Source("", "", "", "", "", ""), []);
      buffers := buffers - {key};
      windowStarts := windowStarts - {key};
      order := Without(order, key);
      if found && aggregated.items != [] {
        submitted := submitted + [aggregated];
      }
    }

    method ResetTimer(now: int, key: string, extraMs: int)
      modifies this`timers
      ensures timers == old(timers)[key := now + config.windowMs + extraMs]
    {
      if key in timers {
        timers := timers - {key};
      }
      timers := timers[key := now + config.windowMs + extraMs];
    }
  }

  // ---------------------------------------------------------------- runs

  datatype Event =
    | PushEvent(now: int, item: Item, source: Source, immediate: bool)
    | TimerEvent(key: string)
    | FlushAllEvent

  function Step(c: Config, st: State, e: Event): State {
    match e
    case PushEvent(now, item, source, immediate) => Pushed(c, st, now, item, source, immediate)
    case TimerEvent(key) => if key in st.timers then Flush(st, key) else st
    case FlushAllEvent => FlushKeys(st, st.order)
  }

  function Run(c: Config, events: seq<Event>): State {
    if events == [] then IDLE else Step(c, Run(c, events[..|events| - 1]), events[|events| - 1])
  }

  /** The items of a sender, in the order in which they were pushed. */
  function PushedItems(events: seq<Event>, sender: string): seq<Item> {
    if events == [] then []
    else
      var before, e := PushedItems(events[..|events| - 1], sender), events[|events| - 1];
      if e.PushEvent? && e.source.senderId == sender then before + [e.item] else before
  }

  /** The items of a sender's batches, in the order of submission. */
  function ItemsOf(batches: seq<AggregatedMessage>, sender: string): seq<Item> {
    if batches == [] then []
    else
      var last := batches[|batches| - 1];
      ItemsOf(batches[..|batches| - 1], sender) + (if last.source.senderId == sender then last.items else [])
  }

  function Waiting(st: State, sender: string): seq<Item> {
    if sender in st.buffers then st.buffers[sender].items else []
  }

  /** All a sender's items that the state accounts for. */
  function Accounted(st: State, sender: string): seq<Item> {
    ItemsOf(st.submitted, sender) + Waiting(st, sender)
  }

  // ---------------------------------------------------------------- invariant

  function MaxInt(a: int, b: int): int { if a > b then a else b }

  predicate SizeOk(c: Config, m: AggregatedMessage) {
    1 <= |m.items| <= MaxInt(2, c.maxMessages)
  }

  /** Sender k's entries in the three maps agree: all there or none, the buffer of k not empty and not full,
      its timer due within the window limits. */
  predicate Settled(c: Config, st: State, k: string) {
    && (k in st.timers <==> k in st.buffers) && (k in st.windowStarts <==> k in st.buffers)
    && (k in st.order <==> k in st.buffers)
    && (k in st.buffers && k in st.timers && k in st.windowStarts ==>
          && st.buffers[k].source.senderId == k
          && 1 <= |st.buffers[k].items| < MaxInt(2, c.maxMessages)
          && st.timers[k] <= st.windowStarts[k] + MaxInt(0, c.maxWindowMs) + c.windowMs
                                                  + AGGREGATE_IMAGE_EXTRA_WINDOW_MS)
  }

  predicate BatchesOk(c: Config, st: State) {
    forall j :: 0 <= j < |st.submitted| ==> SizeOk(c, st.submitted[j])
  }

  /** What holds between steps. */
  ghost predicate Inv(c: Config, st: State) {
    BatchesOk(c, st) && forall k :: Settled(c, st, k)
  }

  lemma {:induction false} WithoutMembers(order: seq<string>, key: string)
    ensures forall k :: k in Without(order, key) <==> k in order && k != key
  {
    if order != [] {
      WithoutMembers(order[1..], key);
      assert forall k :: k in order <==> k == order[0] || k in order[1..];
    }
  }

  /** A flush settles its own sender, whatever state it is in, and leaves the others alone. */
  lemma FlushSettles(c: Config, st: State, key: string)
    requires BatchesOk(c, st) && forall k :: k != key ==> Settled(c, st, k)
    requires key in st.buffers ==> SizeOk(c, st.buffers[key])
    ensures Inv(c, Flush(st, key)) && key !in Flush(st, key).buffers
  {
    WithoutMembers(st.order, key);
    var next := Flush(st, key);
    forall k ensures Settled(c, next, k) {
      assert k != key ==> Settled(c, st, k);
    }
  }

  lemma ItemsPush(batches: seq<AggregatedMessage>, m: AggregatedMessage, s: string)
    ensures ItemsOf(batches + [m], s) == ItemsOf(batches, s) + (if m.source.senderId == s then m.items else [])
  {
    assert (batches + [m])[..|batches|] == batches;
  }

  /** A flush moves a sender's items from its buffer to the end of its batches. */
  lemma FlushKeepsItems(st: State, key: string, s: string)
    requires key in st.buffers ==> st.buffers[key].source.senderId == key
    ensures Accounted(Flush(st, key), s) == Accounted(st, s)
  {
    if key in st.buffers {
      ItemsPush(st.submitted, st.buffers[key], s);
    }
  }

  lemma PushKeepsInv(c: Config, st: State, now: int, item: Item, source: Source, immediate: bool)
    requires Inv(c, st)
    ensures Inv(c, Pushed(c, st, now, item, source, immediate))
  {
    var key := source.senderId;
    assert Settled(c, st, key);
    var next := Pushed(c, st, now, item, source, immediate);
    if key in next.buffers {
      assert next.submitted == st.submitted;
      forall k ensures Settled(c, next, k) {
        assert Settled(c, st, k);
      }
    } else {
      var open := Buffered(st, now, item, source);
      assert next == Flush(open, key);
      forall k | k != key ensures Settled(c, open, k) {
        assert Settled(c, st, k);
      }
      FlushSettles(c, open, key);
    }
  }

  /** The state in which a push decides whether to flush or to wait. */
  function Buffered(st: State, now: int, item: Item, source: Source): State {
    var key := source.senderId;
    if key in st.buffers then
      st.(buffers := st.buffers[key := st.buffers[key].(items := st.buffers[key].items + [item])])
    else
      st.(buffers := st.buffers[key := AggregatedMessage(source, [item])],
          windowStarts := st.windowStarts[key := now], order := st.order + [key])
  }

  lemma BufferedAddsItem(st: State, now: int, item: Item, source: Source, s: string)
    ensures Accounted(Buffered(st, now, item, source), s)
         == Accounted(st, s) + if s == source.senderId then [item] else []
  {
    assert ItemsOf(st.submitted, s) + (Waiting(st, s) + [item]) == Accounted(st, s) + [item];
    assert Accounted(st, s) + [] == Accounted(st, s);
  }

  lemma PushAddsItem(c: Config, st: State, now: int, item: Item, source: Source, immediate: bool, s: string)
    requires Inv(c, st)
    ensures Accounted(Pushed(c, st, now, item, source, immediate), s)
         == Accounted(st, s) + if s == source.senderId then [item] else []
  {
    hide ItemsOf, BatchesOk, Without;
    var key := source.senderId;
    assert Settled(c, st, key);
    var open := Buffered(st, now, item, source);
    BufferedAddsItem(st, now, item, source, s);
    FlushKeepsItems(open, key, s);
    var next := Pushed(c, st, now, item, source, immediate);
    assert next == Flush(open, key) || next == open.(timers := next.timers);
  }

  lemma {:induction false} FlushKeysKeepInv(c: Config, st: State, keys: seq<string>, s: string)
    requires Inv(c, st)
    ensures Inv(c, FlushKeys(st, keys))
    ensures s in FlushKeys(st, keys).buffers <==> s in st.buffers && s !in keys
    ensures Accounted(FlushKeys(st, keys), s) == Accounted(st, s)
    decreases |keys|
  {
    hide Accounted, BatchesOk;
    if keys != [] {
      var key := keys[0];
      assert Settled(c, st, key);
      FlushSettles(c, st, key);
      FlushKeepsItems(st, key, s);
      FlushKeysKeepInv(c, Flush(st, key), keys[1..], s);
      assert s in keys <==> s == key || s in keys[1..];
    }
  }

  lemma HasMember(order: seq<string>)
    ensures order == [] || exists k :: k in order
  {
    if order != [] {
      assert order[0] in order;
    }
  }

  /** flushAll leaves all three maps empty. */
  lemma FlushAllEmpties(c: Config, st: State)
    requires Inv(c, st)
    ensures var next := FlushKeys(st, st.order);
            next.buffers == map[] && next.timers == map[] && next.windowStarts == map[] && next.order == []
  {
    hide Accounted, BatchesOk;
    var next := FlushKeys(st, st.order);
    HasMember(next.order);
    forall k ensures k !in next.buffers && k !in next.timers && k !in next.windowStarts && k !in next.order {
      FlushKeysKeepInv(c, st, st.order, k);
      assert Settled(c, st, k) && Settled(c, next, k);
    }
  }

  /** After any run: the maps agree, sizes and deadlines are bounded, and every sender's pushed items are those
      of its batches followed by those still waiting, each once and in order. */
  lemma {:induction false} RunKeepsAll(c: Config, events: seq<Event>, s: string)
    ensures Inv(c, Run(c, events))
    ensures PushedItems(events, s) == Accounted(Run(c, events), s)
  {
    if events != [] {
      hide Accounted, BatchesOk, Settled;
      var st, e := Run(c, events[..|events| - 1]), events[|events| - 1];
      RunKeepsAll(c, events[..|events| - 1], s);
      match e
      case PushEvent(now, item, source, immediate) =>
        PushKeepsInv(c, st, now, item, source, immediate);
        PushAddsItem(c, st, now, item, source, immediate, s);
      case TimerEvent(key) => FlushOne(c, st, key, s);
      case FlushAllEvent => FlushKeysKeepInv(c, st, st.order, s);
    } else {
      Idle(c, s);
    }
  }

  lemma FlushOne(c: Config, st: State, key: string, s: string)
    requires Inv(c, st)
    ensures Inv(c, Flush(st, key)) && Accounted(Flush(st, key), s) == Accounted(st, s)
  {
    assert Settled(c, st, key);
    FlushSettles(c, st, key);
    FlushKeepsItems(st, key, s);
  }

  lemma Idle(c: Config, s: string)
    ensures Inv(c, IDLE) && Accounted(IDLE, s) == []
  {}

  /** Bounded delay and size, in every reachable state: the three maps have the same keys; a sender that waits has
      a timer that is due within the window limits; waiting buffers are neither empty nor full; batches have from 1
      to maxMessages items, or 2 where that is less. */
  lemma WaitingIsBounded(c: Config, events: seq<Event>, s: string)
    ensures var st := Run(c, events);
            && (s in st.timers <==> s in st.buffers) && (s in st.windowStarts <==> s in st.buffers)
            && (s in st.buffers && s in st.timers && s in st.windowStarts ==>
                  && 1 <= |st.buffers[s].items| < MaxInt(2, c.maxMessages)
                  && st.timers[s] <= st.windowStarts[s] + MaxInt(0, c.maxWindowMs) + c.windowMs + 2_000)
            && (forall j :: 0 <= j < |st.submitted| ==> 1 <= |st.submitted[j].items| <= MaxInt(2, c.maxMessages))
  {
    RunKeepsAll(c, events, s);
    assert Settled(c, Run(c, events), s);
  }

  /** No batch of any run exceeds maxMessages exactly when maxMessages is at least 2: the first push of a window
      never looks at the limit. */
  lemma BatchesWithinLimit(c: Config)
    ensures (forall events :: WithinLimit(c, Run(c, events))) <==> c.maxMessages >= 2
  {
    if c.maxMessages >= 2 {
      forall events ensures WithinLimit(c, Run(c, events)) {
        RunKeepsAll(c, events, "");
      }
    } else {
      TwoPushes(c);
    }
  }

  predicate WithinLimit(c: Config, st: State) {
    forall j :: 0 <= j < |st.submitted| ==> |st.submitted[j].items| <= c.maxMessages
  }

  lemma TwoPushes(c: Config)
    requires c.maxMessages < 2
    ensures exists events :: !WithinLimit(c, Run(c, events))
  {
    var source := Source("", "", "", "", "", "");
    var e := PushEvent(0, Item("", 0), source, false);
    var events := [e, e];
    assert events[..1] == [e] && [e][..0] == [];
    var one := Run(c, [e]);
    assert one == Step(c, Run(c, []), e);
    assert [Item("", 0)] + [Item("", 0)] == [Item("", 0), Item("", 0)];
    assert Run(c, events) == Step(c, one, e);
    assert one.buffers[""].items == [Item("", 0)];
    assert Run(c, events).submitted == [AggregatedMessage(source, [Item("", 0), Item("", 0)])];
    assert |Run(c, events).submitted[0].items| == 2;
    assert !WithinLimit(c, Run(c, events));
  }

  // ---------------------------------------------------------------- when a sender waits, and until when

  /** The pushes of a sender. */
  function Pushes(events: seq<Event>, sender: string): (r: seq<Event>)
    ensures forall k :: 0 <= k < |r| ==> r[k].PushEvent? && r[k].source.senderId == sender
  {
    if events == [] then []
    else
      var e := events[|events| - 1];
      Pushes(events[..|events| - 1], sender) + if e.PushEvent? && e.source.senderId == sender then [e] else []
  }

  /** The pushes whose items still wait: as many of the last ones as there are items. */
  ghost predicate WaitsFor(st: State, sender: string, ps: seq<Event>) {
    sender in st.buffers ==>
      var n := |st.buffers[sender].items|;
      && 0 < n <= |ps| && ps[|ps| - n].PushEvent? && ps[|ps| - 1].PushEvent?
      && st.buffers[sender].source == ps[|ps| - n].source
  }

  /** A waiting sender's window began with the first push that still waits, and its timer counts from the last one,
      with 2 seconds more if that brought images. */
  ghost predicate Timed(c: Config, st: State, sender: string, ps: seq<Event>) {
    sender in st.buffers ==>
      && WaitsFor(st, sender, ps)
      && sender in st.windowStarts && st.windowStarts[sender] == ps[|ps| - |st.buffers[sender].items|].now
      && sender in st.timers
      && st.timers[sender] == ps[|ps| - 1].now + c.windowMs + if ps[|ps| - 1].item.images > 0 then 2_000 else 0
  }

  /** The push ends the sender's wait: it is immediate, or it is not the first of its window and fills the buffer or
      comes when the window has been open for the longest time. */
  ghost predicate EndsWait(c: Config, st: State, ps: seq<Event>, e: Event)
    requires e.PushEvent?
    requires WaitsFor(st, e.source.senderId, ps)
  {
    || e.immediate
    || (&& e.source.senderId in st.buffers
        && var n := |st.buffers[e.source.senderId].items|;
           n + 1 >= c.maxMessages || e.now - ps[|ps| - n].now >= c.maxWindowMs)
  }

  lemma PushesPush(events: seq<Event>, e: Event, sender: string)
    ensures Pushes(events + [e], sender)
         == Pushes(events, sender) + if e.PushEvent? && e.source.senderId == sender then [e] else []
  {
    assert (events + [e])[..|events|] == events;
  }

  lemma OwnPush(c: Config, st: State, e: Event, ps: seq<Event>)
    requires e.PushEvent? && Timed(c, st, e.source.senderId, ps) && Settled(c, st, e.source.senderId)
    ensures Timed(c, Step(c, st, e), e.source.senderId, ps + [e])
    ensures e.source.senderId in Step(c, st, e).buffers <==> !EndsWait(c, st, ps, e)
    ensures var key := e.source.senderId; EndsWait(c, st, ps, e) ==>
              Step(c, st, e).submitted == st.submitted
                + [AggregatedMessage(if key in st.buffers then st.buffers[key].source else e.source,
                                     Waiting(st, key) + [e.item])]
  {
    hide Without;
    assert (ps + [e])[..|ps|] == ps && [] + [e.item] == [e.item];
  }

  lemma OtherPush(c: Config, st: State, e: Event, sender: string, ps: seq<Event>)
    requires e.PushEvent? && e.source.senderId != sender && Timed(c, st, sender, ps)
    ensures Timed(c, Step(c, st, e), sender, ps)
    ensures sender in Step(c, st, e).buffers <==> sender in st.buffers
  {
    hide Without;
  }

  lemma FlushTimed(c: Config, st: State, key: string, sender: string, ps: seq<Event>)
    requires Timed(c, st, sender, ps)
    ensures Timed(c, Flush(st, key), sender, ps)
  {
    hide Without;
  }

  lemma {:induction false} FlushKeysTimed(c: Config, st: State, keys: seq<string>, sender: string, ps: seq<Event>)
    requires Timed(c, st, sender, ps)
    ensures Timed(c, FlushKeys(st, keys), sender, ps)
    decreases |keys|
  {
    hide Timed, Flush;
    if keys != [] {
      FlushTimed(c, st, keys[0], sender, ps);
      FlushKeysTimed(c, Flush(st, keys[0]), keys[1..], sender, ps);
    }
  }

  /** In every reachable state, for every sender. */
  lemma {:induction false} RunIsTimed(c: Config, events: seq<Event>, sender: string)
    ensures Timed(c, Run(c, events), sender, Pushes(events, sender))
  {
    if events == [] {
    } else {
      hide Timed, Flush, Settled, Pushed, BatchesOk, Accounted;
      var init, e := events[..|events| - 1], events[|events| - 1];
      var st, ps := Run(c, init), Pushes(init, sender);
      assert events == init + [e];
      RunIsTimed(c, init, sender);
      RunKeepsAll(c, init, sender);
      PushesPush(init, e, sender);
      match e
      case PushEvent(_, _, source, _) =>
        if source.senderId == sender {
          OwnPush(c, st, e, ps);
        } else {
          OtherPush(c, st, e, sender, ps);
          assert ps + [] == ps;
        }
      case TimerEvent(key) =>
        assert ps + [] == ps;
        FlushTimed(c, st, key, sender, ps);
      case FlushAllEvent =>
        assert ps + [] == ps;
        FlushKeysTimed(c, st, st.order, sender, ps);
    }
  }

  /** After any run, a push ends its sender's wait exactly when it is immediate, fills the buffer, or comes too late in
      the window; it then submits the waiting items and its own as one batch, with the first push's sender data. */
  lemma PushEndsWaitIff(c: Config, events: seq<Event>, e: Event)
    requires e.PushEvent?
    ensures var st, ps := Run(c, events), Pushes(events, e.source.senderId);
            var key, next := e.source.senderId, Run(c, events + [e]);
            && WaitsFor(st, key, ps)
            && (key in next.buffers <==> !EndsWait(c, st, ps, e))
            && (EndsWait(c, st, ps, e) ==>
                  next.submitted == st.submitted
                    + [AggregatedMessage(if key in st.buffers then st.buffers[key].source else e.source,
                                         Waiting(st, key) + [e.item])])
            && (!EndsWait(c, st, ps, e) ==> next.submitted == st.submitted)
  {
    hide Run, Settled, BatchesOk, Accounted;
    var key := e.source.senderId;
    RunPush(c, events, e);
    RunIsTimed(c, events, key);
    RunKeepsAll(c, events, key);
    OwnPush(c, Run(c, events), e, Pushes(events, key));
  }

  lemma RunPush(c: Config, events: seq<Event>, e: Event)
    ensures Run(c, events + [e]) == Step(c, Run(c, events), e)
  {
    hide Step;
    assert (events + [e])[..|events|] == events;
  }
}
