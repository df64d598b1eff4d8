/** Disconnects, deadlines and reconciliation of src/acp/translator.ts as a state machine. A step is a stretch of
    the source between two awaits; runs interleave the steps of any number of reconciliations. A prompt is known by
    its run id, which is fresh; a disconnect context is known by its generation. */
module GatewayRuns {
  import opened Text

  datatype Context = Context(generation: nat, reason: string)

  datatype Prompt = Prompt(runId: string, sendAccepted: bool, context: Option<Context>) {
    function Stamp(): Option<nat> { if context.Some? then Some(context.value.generation) else None }
  }

  /** Why a reconciliation rejected a prompt: the generation it was begun for, and the stamp it found. */
  datatype Rejection = Rejection(runId: string, observed: nat, stamp: Option<nat>, reason: string)

  /** Pending prompts by session, the generation the armed timer is for, the live context, the newest generation. */
  datatype Agent = Agent(
    pending: map<string, Prompt>, timer: Option<nat>, active: Option<Context>, generation: nat,
    rejected: seq<Rejection>)

  const IDLE := Agent(map[], None, None, 0, [])

  datatype Reply = Failed | StatusOk | StatusError | StatusOther

  /** The prompt that a reconciliation asks agent.wait about, with the context it was stamped with then. */
  datatype Wait = Wait(sessionId: string, runId: string, context: Context)

  /** A reconciliation under way: entries still to visit, the one asked about, whether to keep the timer.
      History: the run ids it began with, those it is through with, and those it has asked about. */
  datatype Task = Task(
    generation: nat, deadline: bool, todo: seq<(string, string)>, waiting: Option<Wait>, keep: bool,
    scope: set<string>, visited: set<string>, asked: set<string>)

  function RunIds(entries: seq<(string, string)>): set<string> {
    set k | 0 <= k < |entries| :: entries[k].1
  }

  // ---------------------------------------------------------------- the agent's own steps

  predicate Current(a: Agent, sessionId: string, runId: string) {
    sessionId in a.pending && a.pending[sessionId].runId == runId
  }

  function ClearTimer(a: Agent): Agent { a.(timer := None) }

  /** Taking a prompt off the map; without prompts there is no timer. */
  function Dropped(a: Agent, sessionId: string): Agent {
    var b := a.(pending := a.pending - {sessionId});
    if b.pending == map[] then ClearTimer(b) else b
  }

  function Stamped(pending: map<string, Prompt>, c: Context): map<string, Prompt> {
    map s | s in pending :: pending[s].(context := Some(c))
  }

  function Disconnected(a: Agent, reason: string): Agent {
    var c := Context(a.generation + 1, reason);
    var b := a.(generation := c.generation, active := Some(c), pending := Stamped(a.pending, c));
    if a.pending == map[] then b else b.(timer := Some(c.generation))
  }

  function Admitted(a: Agent, sessionId: string, runId: string): Agent {
    var b := a.(pending := a.pending[sessionId := Prompt(runId, false, a.active)]);
    if a.active.Some? && a.timer.None? then b.(timer := Some(a.active.value.generation)) else b
  }

  function Accepted(a: Agent, sessionId: string, runId: string): Agent {
    if Current(a, sessionId, runId) then
      a.(pending := a.pending[sessionId := a.pending[sessionId].(sendAccepted := true)])
    else a
  }

  /** A failed send leaves the prompt pending only when the gateway closed and the prompt is still the current one;
      otherwise it takes off whatever prompt the session has. */
  function SendFailed(a: Agent, sessionId: string, runId: string, gatewayClosed: bool): Agent {
    if SendRejects(a, sessionId, runId, gatewayClosed) then Dropped(a, sessionId) else a
  }

  /** Whether a failed send rejects its prompt: always, unless it leaves it pending. */
  predicate SendRejects(a: Agent, sessionId: string, runId: string, gatewayClosed: bool) {
    !(gatewayClosed && Current(a, sessionId, runId))
  }

  predicate ShouldReject(a: Agent, p: Prompt, c: Context) {
    && p.context == Some(c)
    && (!p.sendAccepted || (a.active.Some? && a.active.value.generation == c.generation))
  }

  function Rejected(a: Agent, sessionId: string, observed: nat, reason: string): Agent
    requires sessionId in a.pending
  {
    var p := a.pending[sessionId];
    Dropped(a, sessionId).(rejected := a.rejected + [Rejection(p.runId, observed, p.Stamp(), reason)])
  }

  function Unstamped(a: Agent, sessionId: string, c: Context): Agent
    requires sessionId in a.pending
  {
    if a.pending[sessionId].context == Some(c)
    then a.(pending := a.pending[sessionId := a.pending[sessionId].(context := None)])
    else a
  }

  /** The deadline for a prompt that is still current. */
  function Expired(a: Agent, w: Wait, observed: nat): Agent
    requires w.sessionId in a.pending
  {
    if ShouldReject(a, a.pending[w.sessionId], w.context) then Rejected(a, w.sessionId, observed, w.context.reason)
    else Unstamped(a, w.sessionId, w.context)
  }

  /** What a reply of agent.wait does, and whether the timer is to be kept. */
  function Settled(a: Agent, w: Wait, observed: nat, deadline: bool, reply: Reply): (Agent, bool) {
    var current := Current(a, w.sessionId, w.runId);
    match reply
    case Failed =>
      if !deadline then (a, true) else if current then (Expired(a, w, observed), false) else (a, false)
    case StatusOk => if current then (Dropped(a, w.sessionId), false) else (a, false)
    case StatusError => if current then (Dropped(a, w.sessionId), false) else (a, false)
    case StatusOther =>
      if !current then (a, false) else if deadline then (Expired(a, w, observed), false) else (a, true)
  }

  predicate Eligible(a: Agent, entry: (string, string), generation: nat) {
    && Current(a, entry.0, entry.1)
    && a.pending[entry.0].context.Some? && a.pending[entry.0].context.value.generation == generation
  }

  /** On to the next eligible entry, or, behind the last one, to the end: there the timer is cleared unless it is
      to be kept or a newer disconnect owns it. */
  function Advanced(a: Agent, t: Task): (Agent, Option<Task>)
    decreases |t.todo|
  {
    if t.todo == [] then
      (if !t.keep && a.generation == t.generation then ClearTimer(a) else a, None)
    else
      var entry := t.todo[0];
      if Eligible(a, entry, t.generation) then
        var w := Wait(entry.0, entry.1, a.pending[entry.0].context.value);
        (a, Some(t.(todo := t.todo[1..], waiting := Some(w), asked := t.asked + {entry.1})))
      else
        Advanced(a, t.(todo := t.todo[1..], visited := t.visited + {entry.1}))
  }

  /** Beginning a reconciliation over a snapshot of the pending entries. */
  function Begun(a: Agent, generation: nat, deadline: bool, entries: seq<(string, string)>): (Agent, Option<Task>) {
    if a.pending == map[] then (if a.generation == generation then ClearTimer(a) else a, None)
    else Advanced(a, FirstTask(generation, deadline, entries))
  }

  function FirstTask(generation: nat, deadline: bool, entries: seq<(string, string)>): Task {
    Task(generation, deadline, entries, None, false, RunIds(entries), {}, {})
  }

  /** A reply arrives and is settled; there the loop awaits once more. A reconciliation that is not waiting for a
      reply goes on with its list. */
  function Resumed(a: Agent, t: Task, reply: Reply): (Agent, Option<Task>) {
    match t.waiting
    case None => Advanced(a, t)
    case Some(w) =>
      var settled := Settled(a, w, t.generation, t.deadline, reply);
      (settled.0, Some(t.(waiting := None, keep := t.keep || settled.1, visited := t.visited + {w.runId})))
  }

  // ---------------------------------------------------------------- runs

  /** A failed send rejected its prompt, when so many rejections by reconciliations were logged. */
  datatype Refusal = Refusal(runId: string, before: nat)

  /** The agent and the reconciliations under way. History: the session every run id was given to, the reason of
      every disconnect, by generation, the run ids whose send has ended, and the rejections by failed sends. */
  datatype System = System(
    agent: Agent, tasks: map<nat, Task>, owner: map<string, string>, reasons: seq<string>, ended: set<string>,
    refused: seq<Refusal>)

  const START := System(IDLE, map[], map[], [], {}, [])

  datatype Event =
    | DisconnectEvent(reason: string)
    | ReconnectEvent(task: nat, entries: seq<(string, string)>)
    | TimerEvent(task: nat, entries: seq<(string, string)>)
    | PromptEvent(sessionId: string, runId: string)
    | AcceptedEvent(sessionId: string, runId: string)
    | SendFailedEvent(sessionId: string, runId: string, gatewayClosed: bool)
    | FinishEvent(sessionId: string)
    | ReplyEvent(task: nat, reply: Reply)

  /** The entries list exactly the pending prompts, in some order. */
  ghost predicate Snapshot(a: Agent, entries: seq<(string, string)>) {
    && (forall k :: 0 <= k < |entries| ==> Current(a, entries[k].0, entries[k].1))
    && (forall s :: s in a.pending ==> (s, a.pending[s].runId) in entries)
  }

  function WithTask(sys: System, id: nat, r: (Agent, Option<Task>)): System {
    sys.(agent := r.0, tasks := if r.1.Some? then sys.tasks[id := r.1.value] else sys.tasks - {id})
  }

  predicate SendUnderWay(sys: System, sessionId: string, runId: string) {
    runId in sys.owner && sys.owner[runId] == sessionId && runId !in sys.ended
  }

  /** Which steps are possible: timers fire when armed, reconciliations get their own names and take a snapshot,
      run ids are fresh, and the send of every prompt ends once, accepted or failed. */
  ghost predicate Enabled(sys: System, e: Event) {
    match e
    case ReconnectEvent(task, entries) => task !in sys.tasks && Snapshot(sys.agent, entries)
    case TimerEvent(task, entries) => sys.agent.timer.Some? && task !in sys.tasks && Snapshot(sys.agent, entries)
    case PromptEvent(_, runId) => runId !in sys.owner
    case AcceptedEvent(sessionId, runId) => SendUnderWay(sys, sessionId, runId)
    case SendFailedEvent(sessionId, runId, _) => SendUnderWay(sys, sessionId, runId)
    case ReplyEvent(task, _) => task in sys.tasks
    case _ => true
  }

  ghost function Step(sys: System, e: Event): System
    requires Enabled(sys, e)
  {
    var a := sys.agent;
    match e
    case DisconnectEvent(reason) => sys.(agent := Disconnected(a, reason), reasons := sys.reasons + [reason])
    case ReconnectEvent(task, entries) =>
      if a.active.None? then sys
      else WithTask(sys, task, Begun(a.(active := None), a.active.value.generation, false, entries))
    case TimerEvent(task, entries) => WithTask(sys, task, Begun(ClearTimer(a), a.timer.value, true, entries))
    case PromptEvent(sessionId, runId) =>
        sys.(agent := Admitted(a, sessionId, runId), owner := sys.owner[runId := sessionId])
    case AcceptedEvent(sessionId, runId) =>
      sys.(agent := Accepted(a, sessionId, runId), ended := sys.ended + {runId})
    case SendFailedEvent(sessionId, runId, gatewayClosed) =>
      var refusal := if SendRejects(a, sessionId, runId, gatewayClosed) then [Refusal(runId, |a.rejected|)] else [];
      sys.(agent := SendFailed(a, sessionId, runId, gatewayClosed), ended := sys.ended + {runId},
           refused := sys.refused + refusal)
    case FinishEvent(sessionId) => sys.(agent := Dropped(a, sessionId))
    case ReplyEvent(task, reply) => WithTask(sys, task, Resumed(a, sys.tasks[task], reply))
  }

  /** A step that is not possible does not happen. */
  ghost function Run(events: seq<Event>): System {
    if events == [] then START
    else
      var before, e := Run(events[..|events| - 1]), events[|events| - 1];
      if Enabled(before, e) then Step(before, e) else before
  }

  // ---------------------------------------------------------------- invariant

  predicate Known(c: Context, reasons: seq<string>) {
    1 <= c.generation <= |reasons| && reasons[c.generation - 1] == c.reason
  }

  /** The live context carries the newest generation, no stamp is newer, an armed timer belongs to the newest
      generation and to prompts that are there, and every rejection hit a prompt stamped with the very generation
      it was decided for. */
  ghost predicate AgentOk(a: Agent, owner: map<string, string>, reasons: seq<string>) {
    && a.generation == |reasons|
    && (a.active.Some? ==> Known(a.active.value, reasons) && a.active.value.generation == a.generation)
    && (a.timer.Some? ==> a.timer.value == a.generation && a.pending != map[])
    && (forall s :: s in a.pending ==> PromptOk(s, a.pending[s], owner, reasons))
    && (forall k :: 0 <= k < |a.rejected| ==> a.rejected[k].stamp == Some(a.rejected[k].observed))
  }

  predicate PromptOk(s: string, p: Prompt, owner: map<string, string>, reasons: seq<string>) {
    && p.runId in owner && owner[p.runId] == s
    && (p.context.Some? ==> Known(p.context.value, reasons))
  }

  predicate EntryOk(e: (string, string), owner: map<string, string>) {
    e.1 in owner && owner[e.1] == e.0
  }

  /** Of the prompts a reconciliation is through with, those left pending with its stamp were asked about; a
      deadline leaves none. */
  ghost predicate ThroughWith(t: Task, a: Agent) {
    forall s :: s in a.pending && a.pending[s].runId in t.visited && a.pending[s].Stamp() == Some(t.generation) ==>
                  !t.deadline && a.pending[s].runId in t.asked
  }

  /** The run ids a reconciliation has still to see to. */
  function Ahead(t: Task): set<string> {
    RunIds(t.todo) + (if t.waiting.Some? then {t.waiting.value.runId} else {})
  }

  /** The same of all prompts that it began with. */
  ghost predicate Thorough(t: Task, a: Agent) {
    forall s :: s in a.pending && a.pending[s].runId in t.scope && a.pending[s].Stamp() == Some(t.generation) ==>
                  !t.deadline && a.pending[s].runId in t.asked
  }

  ghost predicate TaskOk(t: Task, a: Agent, owner: map<string, string>, reasons: seq<string>) {
    && t.generation <= |reasons| && (t.deadline ==> !t.keep)
    && t.visited <= owner.Keys && t.scope <= t.visited + Ahead(t)
    && (forall k :: 0 <= k < |t.todo| ==> EntryOk(t.todo[k], owner))
    && (t.waiting.Some? ==>
          && EntryOk((t.waiting.value.sessionId, t.waiting.value.runId), owner) && t.waiting.value.runId in t.asked
          && Known(t.waiting.value.context, reasons) && t.waiting.value.context.generation == t.generation)
    && ThroughWith(t, a)
  }

  ghost predicate Inv(sys: System) {
    && AgentOk(sys.agent, sys.owner, sys.reasons)
    && forall id :: id in sys.tasks ==> TaskOk(sys.tasks[id], sys.agent, sys.owner, sys.reasons)
  }

  /** b's stamped prompts are a's, with the same stamps. */
  ghost predicate Calmer(a: Agent, b: Agent) {
    forall s :: s in b.pending && b.pending[s].context.Some? ==>
      s in a.pending && a.pending[s].runId == b.pending[s].runId && a.pending[s].context == b.pending[s].context
  }

  lemma CalmerKeepsTask(t: Task, a: Agent, b: Agent, owner: map<string, string>, reasons: seq<string>)
    requires TaskOk(t, a, owner, reasons) && Calmer(a, b)
    ensures TaskOk(t, b, owner, reasons)
  {}

  lemma DroppedOk(a: Agent, s: string, owner: map<string, string>, reasons: seq<string>)
    requires AgentOk(a, owner, reasons)
    ensures AgentOk(Dropped(a, s), owner, reasons) && Calmer(a, Dropped(a, s)) && s !in Dropped(a, s).pending
    ensures Dropped(a, s).generation == a.generation && Dropped(a, s).active == a.active
  {}

  lemma AcceptedOk(a: Agent, s: string, runId: string, owner: map<string, string>, reasons: seq<string>)
    requires AgentOk(a, owner, reasons)
    ensures AgentOk(Accepted(a, s, runId), owner, reasons) && Calmer(a, Accepted(a, s, runId))
  {}

  lemma DisconnectedOk(a: Agent, reason: string, owner: map<string, string>, reasons: seq<string>)
    requires AgentOk(a, owner, reasons)
    ensures AgentOk(Disconnected(a, reason), owner, reasons + [reason])
  {
    var b := Disconnected(a, reason);
    if a.pending != map[] {
      var s :| s in a.pending;
      assert s in b.pending;
    }
  }

  lemma DisconnectKeepsTask(t: Task, a: Agent, reason: string, owner: map<string, string>, reasons: seq<string>)
    requires AgentOk(a, owner, reasons) && TaskOk(t, a, owner, reasons)
    ensures TaskOk(t, Disconnected(a, reason), owner, reasons + [reason])
  {}

  lemma AdmittedOk(a: Agent, s: string, runId: string, owner: map<string, string>, reasons: seq<string>)
    requires AgentOk(a, owner, reasons) && runId !in owner
    ensures AgentOk(Admitted(a, s, runId), owner[runId := s], reasons)
  {
    var b := Admitted(a, s, runId);
    assert s in b.pending;
    forall k | k in b.pending ensures PromptOk(k, b.pending[k], owner[runId := s], reasons) {
      assert k != s ==> PromptOk(k, a.pending[k], owner, reasons);
    }
  }

  lemma AdmitKeepsTask(t: Task, a: Agent, s: string, runId: string, owner: map<string, string>, reasons: seq<string>)
    requires TaskOk(t, a, owner, reasons) && runId !in owner
    ensures TaskOk(t, Admitted(a, s, runId), owner[runId := s], reasons)
  {
    forall k | 0 <= k < |t.todo| ensures EntryOk(t.todo[k], owner[runId := s]) {
      assert EntryOk(t.todo[k], owner);
    }
  }

  /** What a deadline does to the prompt asked about: it is gone, or it no longer carries the stamp. */
  lemma ExpiredOk(a: Agent, w: Wait, observed: nat, owner: map<string, string>, reasons: seq<string>)
    requires AgentOk(a, owner, reasons) && w.sessionId in a.pending
    requires Known(w.context, reasons) && w.context.generation == observed
    ensures var b := Expired(a, w, observed);
            && AgentOk(b, owner, reasons) && Calmer(a, b)
            && (w.sessionId in b.pending && b.pending[w.sessionId].context.Some? ==>
                  b.pending[w.sessionId].context.value.generation != observed)
  {
    var p := a.pending[w.sessionId];
    assert PromptOk(w.sessionId, p, owner, reasons);
    DroppedOk(a, w.sessionId, owner, reasons);
  }

  lemma SettledOk(
    a: Agent, w: Wait, observed: nat, deadline: bool, reply: Reply, owner: map<string, string>, reasons: seq<string>)
    requires AgentOk(a, owner, reasons) && EntryOk((w.sessionId, w.runId), owner)
    requires Known(w.context, reasons) && w.context.generation == observed
    ensures var b := Settled(a, w, observed, deadline, reply).0;
            && AgentOk(b, owner, reasons) && Calmer(a, b)
            && (deadline ==> forall s :: s in b.pending && b.pending[s].runId == w.runId ==>
                               b.pending[s].Stamp() != Some(observed))
    ensures deadline ==> !Settled(a, w, observed, deadline, reply).1
  {
    hide Expired, Dropped;
    DroppedOk(a, w.sessionId, owner, reasons);
    if w.sessionId in a.pending {
      ExpiredOk(a, w, observed, owner, reasons);
    }
    var b := Settled(a, w, observed, deadline, reply).0;
    forall s | s in b.pending && b.pending[s].runId == w.runId ensures s == w.sessionId {
      assert PromptOk(s, b.pending[s], owner, reasons);
    }
  }

  lemma FirstAhead(todo: seq<(string, string)>)
    requires todo != []
    ensures RunIds(todo) == {todo[0].1} + RunIds(todo[1..])
  {
    forall r | r in RunIds(todo) ensures r == todo[0].1 || r in RunIds(todo[1..]) {
      var k :| 0 <= k < |todo| && todo[k].1 == r;
      assert k > 0 ==> todo[1..][k - 1] == todo[k];
    }
    forall r | r in RunIds(todo[1..]) ensures r in RunIds(todo) {
      var k :| 0 <= k < |todo| - 1 && todo[1..][k].1 == r;
      assert todo[k + 1].1 == r;
    }
  }

  lemma {:induction false} AdvancedOk(a: Agent, t: Task, owner: map<string, string>, reasons: seq<string>)
    requires AgentOk(a, owner, reasons) && TaskOk(t, a, owner, reasons) && t.waiting.None?
    ensures var r := Advanced(a, t);
            && AgentOk(r.0, owner, reasons) && Calmer(a, r.0)
            && (r.1.Some? ==> TaskOk(r.1.value, r.0, owner, reasons))
            && (r.1.None? ==> Thorough(t, r.0))
    decreases |t.todo|
  {
    if t.todo != [] {
      var entry := t.todo[0];
      assert EntryOk(entry, owner);
      FirstAhead(t.todo);
      if Eligible(a, entry, t.generation) {
        assert PromptOk(entry.0, a.pending[entry.0], owner, reasons);
      } else {
        var next := t.(todo := t.todo[1..], visited := t.visited + {entry.1});
        forall s | s in a.pending && a.pending[s].runId == entry.1 ensures s == entry.0 {
          assert PromptOk(s, a.pending[s], owner, reasons);
        }
        AdvancedOk(a, next, owner, reasons);
      }
    }
  }

  lemma BegunOk(
    a: Agent, generation: nat, deadline: bool, entries: seq<(string, string)>, owner: map<string, string>,
    reasons: seq<string>)
    requires AgentOk(a, owner, reasons) && Snapshot(a, entries) && generation <= |reasons|
    ensures var r := Begun(a, generation, deadline, entries);
            && AgentOk(r.0, owner, reasons) && Calmer(a, r.0)
            && (r.1.Some? ==> TaskOk(r.1.value, r.0, owner, reasons))
            && (r.1.None? ==> Thorough(FirstTask(generation, deadline, entries), r.0))
  {
    forall k | 0 <= k < |entries| ensures EntryOk(entries[k], owner) {
      assert PromptOk(entries[k].0, a.pending[entries[k].0], owner, reasons);
    }
    if a.pending != map[] {
      AdvancedOk(a, FirstTask(generation, deadline, entries), owner, reasons);
    }
  }

  lemma ResumedOk(a: Agent, t: Task, reply: Reply, owner: map<string, string>, reasons: seq<string>)
    requires AgentOk(a, owner, reasons) && TaskOk(t, a, owner, reasons)
    ensures var r := Resumed(a, t, reply);
            && AgentOk(r.0, owner, reasons) && Calmer(a, r.0)
            && (r.1.Some? ==> TaskOk(r.1.value, r.0, owner, reasons))
            && (r.1.None? ==> Thorough(t, r.0))
  {
    hide Settled, Advanced, AgentOk;
    if t.waiting.None? {
      AdvancedOk(a, t, owner, reasons);
    } else {
      var w := t.waiting.value;
      SettledOk(a, w, t.generation, t.deadline, reply, owner, reasons);
      var settled := Settled(a, w, t.generation, t.deadline, reply);
      var next := t.(waiting := None, keep := t.keep || settled.1, visited := t.visited + {w.runId});
      assert TaskOk(next, settled.0, owner, reasons);
    }
  }

  lemma CalmerTwice(a: Agent, b: Agent, c: Agent)
    requires Calmer(a, b) && Calmer(b, c)
    ensures Calmer(a, c)
  {}

  lemma StepKeepsInv(sys: System, e: Event)
    requires Inv(sys) && Enabled(sys, e)
    ensures Inv(Step(sys, e))
  {
    hide AgentOk, TaskOk, Disconnected, Admitted, Accepted, Dropped, Begun, Resumed, Calmer;
    var a := sys.agent;
    match e
    case DisconnectEvent(reason) =>
      DisconnectedOk(a, reason, sys.owner, sys.reasons);
      forall id | id in sys.tasks
          ensures TaskOk(sys.tasks[id], Disconnected(a, reason), sys.owner, sys.reasons + [reason]) {
        DisconnectKeepsTask(sys.tasks[id], a, reason, sys.owner, sys.reasons);
      }
    case ReconnectEvent(task, entries) =>
      if a.active.Some? {
        var b := a.(active := None);
        OfflineOk(a, sys.owner, sys.reasons);
        BegunOk(b, a.active.value.generation, false, entries, sys.owner, sys.reasons);
        OthersOk(sys, b, Begun(b, a.active.value.generation, false, entries));
      }
    case TimerEvent(task, entries) =>
      var b := ClearTimer(a);
      OfflineOk(a, sys.owner, sys.reasons);
      BegunOk(b, a.timer.value, true, entries, sys.owner, sys.reasons);
      OthersOk(sys, b, Begun(b, a.timer.value, true, entries));
    case PromptEvent(sessionId, runId) =>
      AdmittedOk(a, sessionId, runId, sys.owner, sys.reasons);
      forall id | id in sys.tasks
          ensures TaskOk(sys.tasks[id], Admitted(a, sessionId, runId), sys.owner[runId := sessionId], sys.reasons) {
        AdmitKeepsTask(sys.tasks[id], a, sessionId, runId, sys.owner, sys.reasons);
      }
    case AcceptedEvent(sessionId, runId) =>
      AcceptedOk(a, sessionId, runId, sys.owner, sys.reasons);
      OthersOk(sys, a, (Accepted(a, sessionId, runId), None));
    case SendFailedEvent(sessionId, runId, gatewayClosed) =>
      DroppedOk(a, sessionId, sys.owner, sys.reasons);
      OthersOk(sys, a, (Dropped(a, sessionId), None));
    case FinishEvent(sessionId) =>
      DroppedOk(a, sessionId, sys.owner, sys.reasons);
      OthersOk(sys, a, (Dropped(a, sessionId), None));
    case ReplyEvent(task, reply) =>
      ResumedOk(a, sys.tasks[task], reply, sys.owner, sys.reasons);
      OthersOk(sys, a, Resumed(a, sys.tasks[task], reply));
  }

  /** Clearing the live context or the timer harms nothing. */
  lemma OfflineOk(a: Agent, owner: map<string, string>, reasons: seq<string>)
    requires AgentOk(a, owner, reasons)
    ensures AgentOk(a.(active := None), owner, reasons) && AgentOk(ClearTimer(a), owner, reasons)
    ensures a.active.Some? ==> a.active.value.generation <= |reasons|
    ensures a.timer.Some? ==> a.timer.value <= |reasons|
    ensures forall entries :: Snapshot(a, entries) ==>
        Snapshot(a.(active := None), entries) && Snapshot(ClearTimer(a), entries)
  {}

  lemma OthersOk(sys: System, b: Agent, r: (Agent, Option<Task>))
    requires Inv(sys) && b.pending == sys.agent.pending && Calmer(b, r.0)
    ensures forall id :: id in sys.tasks ==> TaskOk(sys.tasks[id], r.0, sys.owner, sys.reasons)
  {
    hide TaskOk, AgentOk;
    forall id | id in sys.tasks ensures TaskOk(sys.tasks[id], r.0, sys.owner, sys.reasons) {
      assert Calmer(sys.agent, b);
      CalmerTwice(sys.agent, b, r.0);
      CalmerKeepsTask(sys.tasks[id], sys.agent, r.0, sys.owner, sys.reasons);
    }
  }

  /** In every reachable state, whatever the interleaving. */
  lemma {:induction false} RunKeepsInv(events: seq<Event>)
    ensures Inv(Run(events))
  {
    hide Inv, Step, Enabled;
    if events == [] {
      StartOk();
    } else {
      var before, e := Run(events[..|events| - 1]), events[|events| - 1];
      RunKeepsInv(events[..|events| - 1]);
      if Enabled(before, e) {
        StepKeepsInv(before, e);
      }
    }
  }

  lemma StartOk()
    ensures Inv(START)
  {}

  // ---------------------------------------------------------------- what the runs keep

  /** Over all interleavings: the live context is the newest; no stamp is newer than it; an armed timer belongs to
      the newest disconnect and there is a prompt it is for; every rejection hit a prompt that carried the stamp of
      the generation the reconciliation was begun for. */
  lemma ReachableSafety(events: seq<Event>)
    ensures var a := Run(events).agent;
            && (a.active.Some? ==> a.active.value.generation == a.generation)
            && (forall s :: s in a.pending && a.pending[s].context.Some? ==>
                  a.pending[s].context.value.generation <= a.generation
                  && (a.active.Some? && a.pending[s].context.value.generation == a.generation ==>
                       a.pending[s].context == a.active))
            && (a.timer.Some? ==> a.timer.value == a.generation && a.pending != map[])
            && (forall k :: 0 <= k < |a.rejected| ==> a.rejected[k].stamp == Some(a.rejected[k].observed))
  {
    RunKeepsInv(events);
    var sys := Run(events);
    forall s | s in sys.agent.pending ensures PromptOk(s, sys.agent.pending[s], sys.owner, sys.reasons) {}
  }

  lemma {:induction false} AdvancedKeepsPending(a: Agent, t: Task)
    ensures var b := Advanced(a, t).0;
            b.pending == a.pending && b.rejected == a.rejected && b.active == a.active && b.generation == a.generation
    ensures var b := Advanced(a, t).0; b.timer == a.timer || (b.timer.None? && !t.keep && a.generation == t.generation)
    ensures Advanced(a, t).1.Some? ==> Advanced(a, t).0 == a && Advanced(a, t).1.value.generation == t.generation
                                       && Advanced(a, t).1.value.deadline == t.deadline
    decreases |t.todo|
  {
    if t.todo != [] && !Eligible(a, t.todo[0], t.generation) {
      AdvancedKeepsPending(a, t.(todo := t.todo[1..], visited := t.visited + {t.todo[0].1}));
    }
  }

  /** Settling an older wait leaves a prompt with another stamp as it is and logs no rejection of it. */
  lemma SettledSpares(
    a: Agent, w: Wait, observed: nat, deadline: bool, reply: Reply, s: string, owner: map<string, string>,
    reasons: seq<string>)
    requires AgentOk(a, owner, reasons) && w.context.generation == observed
    requires s in a.pending && a.pending[s].context.Some? && a.pending[s].context.value.generation != observed
    requires reply != StatusOk && reply != StatusError
    ensures var b := Settled(a, w, observed, deadline, reply).0;
            && s in b.pending && b.pending[s] == a.pending[s]
            && forall k :: |a.rejected| <= k < |b.rejected| ==> b.rejected[k].runId != a.pending[s].runId
  {
    PendingOk(a, s, owner, reasons);
    if w.sessionId in a.pending {
      PendingOk(a, w.sessionId, owner, reasons);
    }
  }

  /** A reconciliation never rejects a prompt that carries another stamp than the one it was begun for: a prompt
      stamped again by a later disconnect stays pending, as it is, unless it is reported finished. */
  lemma OlderReconcileSparesRestamped(events: seq<Event>, task: nat, reply: Reply, s: string)
    requires task in Run(events).tasks && s in Run(events).agent.pending
    requires var c := Run(events).agent.pending[s].context;
             c.Some? && c.value.generation != Run(events).tasks[task].generation
    requires reply != StatusOk && reply != StatusError
    ensures var before, after := Run(events).agent, Run(events + [ReplyEvent(task, reply)]).agent;
            && s in after.pending && after.pending[s] == before.pending[s]
            && forall k :: |before.rejected| <= k < |after.rejected| ==>
                 after.rejected[k].runId != before.pending[s].runId
  {
    hide Settled, Advanced, AgentOk;
    var sys := Run(events);
    var a, t := sys.agent, sys.tasks[task];
    var all := events + [ReplyEvent(task, reply)];
    assert all[..|all| - 1] == events;
    RunKeepsInv(events);
    assert TaskOk(t, a, sys.owner, sys.reasons);
    if t.waiting.Some? {
      SettledSpares(a, t.waiting.value, t.generation, t.deadline, reply, s, sys.owner, sys.reasons);
    } else {
      AdvancedKeepsPending(a, t);
    }
  }

  /** The event that a reconciliation begins or goes on with. */
  predicate Works(sys: System, e: Event) {
    || (e.TimerEvent? && sys.agent.timer.Some?)
    || (e.ReconnectEvent? && sys.agent.active.Some?)
    || (e.ReplyEvent? && e.task in sys.tasks)
  }

  /** What a reconciliation that ends in this step had to work off: all that is pending, when it ends at once. */
  function WorkedOff(sys: System, e: Event): Task
    requires Works(sys, e)
  {
    if e.TimerEvent? then FirstTask(sys.agent.timer.value, true, e.entries)
    else if e.ReconnectEvent? then FirstTask(sys.agent.active.value.generation, false, e.entries)
    else sys.tasks[e.task]
  }

  /** When a reconciliation has ended, every prompt that was pending when it began was asked about, or is gone or
      no longer carries its stamp; behind a deadline none does. */
  lemma ReconcileIsThorough(events: seq<Event>, e: Event)
    requires Works(Run(events), e) && Enabled(Run(events), e) && e.task !in Run(events + [e]).tasks
    ensures Thorough(WorkedOff(Run(events), e), Run(events + [e]).agent)
  {
    hide Begun, Resumed, AgentOk, TaskOk, Thorough, FirstTask;
    var sys := Run(events);
    assert (events + [e])[..|events|] == events;
    RunKeepsInv(events);
    OfflineOk(sys.agent, sys.owner, sys.reasons);
    if e.TimerEvent? {
      BegunOk(ClearTimer(sys.agent), sys.agent.timer.value, true, e.entries, sys.owner, sys.reasons);
    } else if e.ReconnectEvent? {
      var a := sys.agent.(active := None);
      BegunOk(a, sys.agent.active.value.generation, false, e.entries, sys.owner, sys.reasons);
    } else {
      ResumedOk(sys.agent, sys.tasks[e.task], e.reply, sys.owner, sys.reasons);
    }
  }

  /** Of the prompts with this stamp that it began with, none is left. */
  ghost predicate NoneLeft(t: Task, a: Agent) {
    forall s :: s in a.pending && a.pending[s].runId in t.scope ==> a.pending[s].Stamp() != Some(t.generation)
  }

  /** When a deadline has been worked off, every prompt that was pending when it fired is gone or no longer carries
      its stamp, whatever happened in between. */
  lemma DeadlineLeavesNone(events: seq<Event>, e: Event)
    requires Works(Run(events), e) && Enabled(Run(events), e) && WorkedOff(Run(events), e).deadline
    requires e.task !in Run(events + [e]).tasks
    ensures NoneLeft(WorkedOff(Run(events), e), Run(events + [e]).agent)
  {
    hide Run, WorkedOff, Works, Enabled;
    ReconcileIsThorough(events, e);
  }

  // ---------------------------------------------------------------- rejected once

  /** A rejected prompt is pending no more, and no prompt was rejected twice. */
  ghost predicate Once(a: Agent, owner: map<string, string>) {
    && (forall j, k :: 0 <= j < k < |a.rejected| ==> a.rejected[j].runId != a.rejected[k].runId)
    && forall k :: 0 <= k < |a.rejected| ==> Gone(a, a.rejected[k].runId) && a.rejected[k].runId in owner
  }

  ghost predicate Gone(a: Agent, runId: string) {
    forall s :: s in a.pending ==> a.pending[s].runId != runId
  }

  /** b has no prompt that a does not have, and the same rejections. */
  ghost predicate Fewer(a: Agent, b: Agent) {
    b.rejected == a.rejected && forall s :: s in b.pending ==>
        s in a.pending && a.pending[s].runId == b.pending[s].runId
  }

  lemma FewerOnce(a: Agent, b: Agent, owner: map<string, string>)
    requires Once(a, owner) && Fewer(a, b)
    ensures Once(b, owner)
  {
    forall k | 0 <= k < |b.rejected| ensures Gone(b, b.rejected[k].runId) {
      assert Gone(a, a.rejected[k].runId);
    }
  }

  lemma RejectedOnce(
    a: Agent, s: string, observed: nat, reason: string, owner: map<string, string>, reasons: seq<string>)
    requires AgentOk(a, owner, reasons) && Once(a, owner) && s in a.pending
    ensures Once(Rejected(a, s, observed, reason), owner)
  {
    hide AgentOk;
    var runId := a.pending[s].runId;
    var b := Rejected(a, s, observed, reason);
    PendingOk(a, s, owner, reasons);
    forall k | k in b.pending ensures b.pending[k].runId != runId {
      PendingOk(a, k, owner, reasons);
    }
    forall k | 0 <= k < |a.rejected| ensures a.rejected[k].runId != runId && Gone(b, a.rejected[k].runId) {
      assert Gone(a, a.rejected[k].runId);
    }
  }

  lemma SettledOnce(
    a: Agent, w: Wait, observed: nat, deadline: bool, reply: Reply, owner: map<string, string>, reasons: seq<string>)
    requires AgentOk(a, owner, reasons) && Once(a, owner)
    ensures Once(Settled(a, w, observed, deadline, reply).0, owner)
  {
    hide AgentOk, Once, Rejected;
    var b := Settled(a, w, observed, deadline, reply).0;
    if w.sessionId in a.pending && ShouldReject(a, a.pending[w.sessionId], w.context) {
      RejectedOnce(a, w.sessionId, observed, w.context.reason, owner, reasons);
      FewerOnce(a, Dropped(a, w.sessionId), owner);
    } else {
      FewerOnce(a, b, owner);
    }
  }

  lemma StepKeepsOnce(sys: System, e: Event)
    requires Inv(sys) && Once(sys.agent, sys.owner) && Enabled(sys, e)
    ensures Once(Step(sys, e).agent, Step(sys, e).owner)
  {
    hide AgentOk, TaskOk, Advanced, Settled;
    var a := sys.agent;
    var next := Step(sys, e);
    match e
    case ReplyEvent(task, reply) =>
      var t := sys.tasks[task];
      if t.waiting.Some? {
        var w := t.waiting.value;
        SettledOnce(a, w, t.generation, t.deadline, reply, sys.owner, sys.reasons);
      } else {
        AdvancedKeepsPending(a, t);
        FewerOnce(a, next.agent, sys.owner);
      }
    case PromptEvent(sessionId, runId) =>
      forall k | 0 <= k < |a.rejected| ensures Gone(next.agent, a.rejected[k].runId) {
        assert Gone(a, a.rejected[k].runId);
      }
    case ReconnectEvent(task, entries) =>
      if a.active.Some? {
        AdvancedKeepsPending(a.(active := None), FirstTask(a.active.value.generation, false, entries));
      }
      FewerOnce(a, next.agent, sys.owner);
    case TimerEvent(task, entries) =>
      AdvancedKeepsPending(ClearTimer(a), FirstTask(a.timer.value, true, entries));
      FewerOnce(a, next.agent, sys.owner);
    case _ => FewerOnce(a, next.agent, sys.owner);
  }

  /** No failed send rejects twice, none of their prompts is pending, and if a reconciliation rejected one of these
      prompts too, it did so before. */
  ghost predicate RefusedOnce(sys: System) {
    && sys.ended <= sys.owner.Keys
    && (forall j, k :: 0 <= j < k < |sys.refused| ==> sys.refused[j].runId != sys.refused[k].runId)
    && forall k :: 0 <= k < |sys.refused| ==> RefusalOk(sys, sys.refused[k])
  }

  ghost predicate RefusalOk(sys: System, r: Refusal) {
    && r.runId in sys.ended && Gone(sys.agent, r.runId) && r.before <= |sys.agent.rejected|
    && forall j :: r.before <= j < |sys.agent.rejected| ==> sys.agent.rejected[j].runId != r.runId
  }

  /** From a to b no prompt comes back, and only prompts that were pending are rejected. */
  ghost predicate Onward(a: Agent, b: Agent) {
    && (forall runId :: Gone(a, runId) ==> Gone(b, runId))
    && a.rejected <= b.rejected
    && forall k :: |a.rejected| <= k < |b.rejected| ==> !Gone(a, b.rejected[k].runId)
  }

  lemma FewerIsOnward(a: Agent, b: Agent)
    requires Fewer(a, b)
    ensures Onward(a, b)
  {}

  lemma SettledIsOnward(a: Agent, w: Wait, observed: nat, deadline: bool, reply: Reply)
    ensures Onward(a, Settled(a, w, observed, deadline, reply).0)
  {
    hide ShouldReject;
    var b := Settled(a, w, observed, deadline, reply).0;
    assert forall s :: s in b.pending ==> s in a.pending && a.pending[s].runId == b.pending[s].runId;
  }

  lemma ResumedIsOnward(a: Agent, t: Task, reply: Reply)
    ensures Onward(a, Resumed(a, t, reply).0)
  {
    hide Settled, Advanced, Onward;
    if t.waiting.Some? {
      SettledIsOnward(a, t.waiting.value, t.generation, t.deadline, reply);
    } else {
      AdvancedKeepsPending(a, t);
      FewerIsOnward(a, Advanced(a, t).0);
    }
  }

  lemma OnwardKeepsRefusals(sys: System, next: System)
    requires RefusedOnce(sys) && Onward(sys.agent, next.agent)
    requires sys.ended <= next.ended <= next.owner.Keys && next.refused == sys.refused
    ensures RefusedOnce(next)
  {
    forall k | 0 <= k < |next.refused| ensures RefusalOk(next, next.refused[k]) {
      assert RefusalOk(sys, sys.refused[k]);
    }
  }

  lemma SendFailedRefuses(sys: System, s: string, runId: string, gatewayClosed: bool)
    requires Inv(sys) && RefusedOnce(sys) && SendUnderWay(sys, s, runId)
    ensures RefusedOnce(Step(sys, SendFailedEvent(s, runId, gatewayClosed)))
  {
    hide Inv;
    var a := sys.agent;
    var next := Step(sys, SendFailedEvent(s, runId, gatewayClosed));
    forall k | k in a.pending && a.pending[k].runId == runId ensures k == s {
      PendingIsOwned(sys, k);
    }
    forall k | 0 <= k < |sys.refused| ensures RefusalOk(next, sys.refused[k]) && sys.refused[k].runId != runId {
      assert RefusalOk(sys, sys.refused[k]);
    }
  }

  lemma PendingIsOwned(sys: System, s: string)
    requires Inv(sys) && s in sys.agent.pending
    ensures var runId := sys.agent.pending[s].runId; runId in sys.owner && sys.owner[runId] == s
  {
    PendingOk(sys.agent, s, sys.owner, sys.reasons);
  }

  lemma StepKeepsRefusals(sys: System, e: Event)
    requires Inv(sys) && RefusedOnce(sys) && Enabled(sys, e)
    ensures RefusedOnce(Step(sys, e))
  {
    hide Inv, RefusedOnce, Onward, Begun, Resumed, Snapshot;
    var a, next := sys.agent, Step(sys, e);
    assert sys.ended <= sys.owner.Keys by { EndedIsOwned(sys); }
    match e
    case SendFailedEvent(s, runId, gatewayClosed) => SendFailedRefuses(sys, s, runId, gatewayClosed);
    case PromptEvent(s, runId) => AdmittedKeepsRefusals(sys, s, runId);
    case ReplyEvent(task, reply) =>
      ResumedIsOnward(a, sys.tasks[task], reply);
      OnwardKeepsRefusals(sys, next);
    case ReconnectEvent(task, entries) =>
      if a.active.Some? {
        BegunIsOnward(a, a.(active := None), a.active.value.generation, false, entries);
        OnwardKeepsRefusals(sys, next);
      }
    case TimerEvent(task, entries) =>
      BegunIsOnward(a, ClearTimer(a), a.timer.value, true, entries);
      OnwardKeepsRefusals(sys, next);
    case _ =>
      FewerIsOnward(a, next.agent);
      OnwardKeepsRefusals(sys, next);
  }

  lemma EndedIsOwned(sys: System)
    requires RefusedOnce(sys)
    ensures sys.ended <= sys.owner.Keys
  {}

  lemma BegunIsOnward(a: Agent, b: Agent, generation: nat, deadline: bool, entries: seq<(string, string)>)
    requires b.pending == a.pending && b.rejected == a.rejected
    ensures Onward(a, Begun(b, generation, deadline, entries).0)
  {
    hide Advanced;
    AdvancedKeepsPending(b, FirstTask(generation, deadline, entries));
    FewerIsOnward(a, Begun(b, generation, deadline, entries).0);
  }

  lemma AdmittedKeepsRefusals(sys: System, s: string, runId: string)
    requires RefusedOnce(sys) && runId !in sys.owner
    ensures RefusedOnce(sys.(agent := Admitted(sys.agent, s, runId), owner := sys.owner[runId := s]))
  {
    var next := sys.(agent := Admitted(sys.agent, s, runId), owner := sys.owner[runId := s]);
    forall k | 0 <= k < |sys.refused| ensures RefusalOk(next, sys.refused[k]) {
      assert RefusalOk(sys, sys.refused[k]);
    }
  }

  /** Over all interleavings a prompt is rejected at most once by a reconciliation, and then at most once more by its
      failed send; behind either it is pending no more. */
  lemma {:induction false} RejectedAtMostOnce(events: seq<Event>)
    ensures Once(Run(events).agent, Run(events).owner)
    ensures RefusedOnce(Run(events))
  {
    if events != [] {
      hide Once, RefusedOnce, Step, Enabled, Inv;
      var before, e := Run(events[..|events| - 1]), events[|events| - 1];
      RejectedAtMostOnce(events[..|events| - 1]);
      RunKeepsInv(events[..|events| - 1]);
      if Enabled(before, e) {
        StepKeepsOnce(before, e);
        StepKeepsRefusals(before, e);
      }
    }
  }

  // ---------------------------------------------------------------- what a failed send takes with it

  /** A failed send leaves the prompts of other runs alone exactly when its session has none of these pending. */
  lemma SendFailedSparesOthersIff(a: Agent, s: string, runId: string, gatewayClosed: bool)
    ensures var b := SendFailed(a, s, runId, gatewayClosed);
            (forall k :: k in a.pending && a.pending[k].runId != runId ==>
               k in b.pending && b.pending[k] == a.pending[k])
            <==> !(s in a.pending && a.pending[s].runId != runId)
  {
    var b := SendFailed(a, s, runId, gatewayClosed);
    assert s in a.pending && a.pending[s].runId != runId ==> s !in b.pending;
  }

  /** It does happen: the second prompt of a session is gone, neither finished nor rejected, when the first one's
      send fails. */
  lemma NewerPromptCanBeLost(gatewayClosed: bool)
    ensures var events := [PromptEvent("s", "r"), PromptEvent("s", "q")];
            && "s" in Run(events).agent.pending && Run(events).agent.pending["s"].runId == "q"
            && var after := Run(events + [SendFailedEvent("s", "r", gatewayClosed)]);
               after.agent.pending == map[] && after.agent.rejected == [] && after.refused == [Refusal("r", 0)]
  {
    hide Run, Step;
    TwoPrompts();
    RunPush([PromptEvent("s", "r"), PromptEvent("s", "q")], SendFailedEvent("s", "r", gatewayClosed));
    FirstSendFails(gatewayClosed);
  }

  function OnePending(runId: string, owner: map<string, string>): System {
    System(Agent(map["s" := Prompt(runId, false, None)], None, None, 0, []), map[], owner, [], {}, [])
  }

  lemma TwoPrompts()
    ensures Run([PromptEvent("s", "r"), PromptEvent("s", "q")]) == OnePending("q", map["r" := "s", "q" := "s"])
  {
    var e1, e2 := PromptEvent("s", "r"), PromptEvent("s", "q");
    RunPush([], e1);
    RunPush([e1], e2);
    assert [] + [e1] == [e1] && [e1] + [e2] == [e1, e2];
    hide Run;
    assert Run([]) == START by { RunOfNothing(); }
    assert After(START, e1) == OnePending("r", map["r" := "s"]);
  }

  lemma RunOfNothing()
    ensures Run([]) == START
  {}

  lemma FirstSendFails(gatewayClosed: bool)
    ensures var after := After(OnePending("q", map["r" := "s", "q" := "s"]), SendFailedEvent("s", "r", gatewayClosed));
            after.agent.pending == map[] && after.agent.rejected == [] && after.refused == [Refusal("r", 0)]
  {
    assert OnePending("q", map["r" := "s", "q" := "s"]).agent.pending - {"s"} == map[];
  }

  // ---------------------------------------------------------------- deadlines reach the prompts they are for

  /** The prompt carries the stamp of the newest disconnect, be the gateway back or not. */
  predicate Live(a: Agent, s: string) {
    s in a.pending && a.pending[s].Stamp() == Some(a.generation)
  }

  /** A deadline is coming for the prompt: the timer is armed, or a deadline for this disconnect has the prompt
      ahead. */
  ghost predicate DeadlineComes(sys: System, s: string)
    requires s in sys.agent.pending
  {
    sys.agent.timer.Some? || exists id :: AheadOf(sys, id, sys.agent.pending[s].runId)
  }

  predicate AheadOf(sys: System, id: nat, runId: string) {
    && id in sys.tasks && sys.tasks[id].deadline && sys.tasks[id].generation == sys.agent.generation
    && runId in Ahead(sys.tasks[id])
  }

  /** No prompt is admitted while a deadline for the live disconnect is being worked off. */
  ghost predicate Orderly(sys: System, e: Event) {
    e.PromptEvent? && Enabled(sys, e) && sys.agent.active.Some? ==>
      forall id :: id in sys.tasks && sys.tasks[id].deadline ==> sys.tasks[id].generation != sys.agent.generation
  }

  ghost predicate OrderlyRun(events: seq<Event>) {
    events == [] || (OrderlyRun(events[..|events| - 1]) && Orderly(Run(events[..|events| - 1]), events[|events| - 1]))
  }

  ghost predicate Covered(sys: System) {
    && (sys.agent.timer.Some? ==>
          forall id :: id in sys.tasks && sys.tasks[id].deadline ==> sys.tasks[id].generation != sys.agent.generation)
    && (sys.agent.active.Some? ==>
          forall id :: id in sys.tasks && !sys.tasks[id].deadline ==> sys.tasks[id].generation != sys.agent.generation)
    && (forall s :: Live(sys.agent, s) ==> DeadlineComes(sys, s))
    && (forall id, s :: WouldClear(sys, id) && Live(sys.agent, s) ==>
          sys.agent.pending[s].runId in Ahead(sys.tasks[id]))
  }

  /** A reconciliation behind the newest disconnect that will clear the timer, as far as it has come. */
  predicate WouldClear(sys: System, id: nat) {
    && id in sys.tasks && !sys.tasks[id].deadline && !sys.tasks[id].keep
    && sys.tasks[id].generation == sys.agent.generation
  }

  /** What is eligible and on the list stays ahead. */
  lemma {:induction false} AdvancedKeepsAhead(a: Agent, t: Task, k: nat)
    requires k < |t.todo| && Eligible(a, t.todo[k], t.generation)
    ensures var r := Advanced(a, t); r.1.Some? && t.todo[k].1 in Ahead(r.1.value)
    decreases |t.todo|
  {
    if Eligible(a, t.todo[0], t.generation) {
      var next := Advanced(a, t).1.value;
      if k > 0 {
        assert next.todo[k - 1] == t.todo[k];
      }
    } else {
      AdvancedKeepsAhead(a, t.(todo := t.todo[1..], visited := t.visited + {t.todo[0].1}), k - 1);
    }
  }

  /** A deadline for the newest disconnect is coming to every prompt with its stamp. */
  lemma {:induction false} DeadlineComesToAll(events: seq<Event>)
    requires OrderlyRun(events)
    ensures Covered(Run(events))
  {
    if events != [] {
      hide Covered, Step, Enabled, Inv;
      var before, e := Run(events[..|events| - 1]), events[|events| - 1];
      DeadlineComesToAll(events[..|events| - 1]);
      RunKeepsInv(events[..|events| - 1]);
      if Enabled(before, e) {
        StepKeepsCovered(before, e);
      }
    }
  }

  lemma StepKeepsCovered(sys: System, e: Event)
    requires Inv(sys) && Covered(sys) && Enabled(sys, e) && Orderly(sys, e)
    ensures Covered(Step(sys, e))
  {
    var a := sys.agent;
    match e
    case DisconnectEvent(reason) =>
      forall id | id in sys.tasks ensures sys.tasks[id].generation <= a.generation {
        assert TaskOk(sys.tasks[id], a, sys.owner, sys.reasons);
      }
    case ReconnectEvent(task, entries) =>
      if a.active.Some? {
        OfflineCovered(sys, task, entries);
      }
    case TimerEvent(task, entries) => TimerCovered(sys, task, entries);
    case PromptEvent(sessionId, runId) => PromptCovered(sys, sessionId, runId);
    case AcceptedEvent(_, _) => SameTasksCovered(sys, Step(sys, e));
    case SendFailedEvent(_, _, _) => SameTasksCovered(sys, Step(sys, e));
    case FinishEvent(_) => SameTasksCovered(sys, Step(sys, e));
    case ReplyEvent(task, reply) => ReplyCovered(sys, task, reply);
  }

  lemma SameTasksCovered(sys: System, next: System)
    requires Covered(sys) && next.tasks == sys.tasks && Calmer(sys.agent, next.agent)
    requires next.agent.active == sys.agent.active && next.agent.generation == sys.agent.generation
    requires next.agent.timer == sys.agent.timer || (next.agent.timer.None? && next.agent.pending == map[])
    ensures Covered(next)
  {
    var b := next.agent;
    forall s | Live(b, s) ensures DeadlineComes(next, s) {
      assert Live(sys.agent, s) && DeadlineComes(sys, s);
      if sys.agent.timer.None? {
        var id :| AheadOf(sys, id, sys.agent.pending[s].runId);
        assert AheadOf(next, id, b.pending[s].runId);
      }
    }
  }

  lemma PromptCovered(sys: System, s: string, runId: string)
    requires Inv(sys) && Covered(sys) && Enabled(sys, PromptEvent(s, runId)) && Orderly(sys, PromptEvent(s, runId))
    ensures Covered(sys.(agent := Admitted(sys.agent, s, runId), owner := sys.owner[runId := s]))
  {
    var a := sys.agent;
    var next := sys.(agent := Admitted(a, s, runId), owner := sys.owner[runId := s]);
    NewestIsLive(sys);
    forall k | Live(next.agent, k) ensures DeadlineComes(next, k) {
      if a.active.None? {
        assert k != s && Live(a, k) && DeadlineComes(sys, k);
        if a.timer.None? {
          var id :| AheadOf(sys, id, a.pending[k].runId);
          assert AheadOf(next, id, next.agent.pending[k].runId);
        }
      }
    }
    forall id, k | WouldClear(next, id) && Live(next.agent, k)
      ensures next.agent.pending[k].runId in Ahead(next.tasks[id])
    {
      assert WouldClear(sys, id) && a.active.None?;
      assert k != s && Live(a, k);
    }
  }

  lemma OfflineCovered(sys: System, task: nat, entries: seq<(string, string)>)
    requires Inv(sys) && Covered(sys) && task !in sys.tasks && sys.agent.active.Some? && Snapshot(sys.agent, entries)
    ensures Covered(WithTask(sys, task,
        Begun(sys.agent.(active := None), sys.agent.active.value.generation, false, entries)))
  {
    hide Advanced;
    var a := sys.agent.(active := None);
    var t := FirstTask(sys.agent.active.value.generation, false, entries);
    var r := Begun(a, t.generation, false, entries);
    var next := WithTask(sys, task, r);
    AdvancedKeepsPending(a, t);
    forall s | Live(r.0, s) ensures DeadlineComes(next, s) && r.1.Some? && a.pending[s].runId in Ahead(r.1.value) {
      var k :| 0 <= k < |entries| && entries[k] == (s, a.pending[s].runId);
      AdvancedKeepsAhead(a, t, k);
      assert Live(sys.agent, s) && DeadlineComes(sys, s);
      if sys.agent.timer.None? {
        var id :| AheadOf(sys, id, sys.agent.pending[s].runId);
        assert AheadOf(next, id, r.0.pending[s].runId);
      }
    }
  }

  lemma TimerCovered(sys: System, task: nat, entries: seq<(string, string)>)
    requires Inv(sys) && Covered(sys) && task !in sys.tasks && sys.agent.timer.Some? && Snapshot(sys.agent, entries)
    ensures Covered(WithTask(sys, task, Begun(ClearTimer(sys.agent), sys.agent.timer.value, true, entries)))
  {
    hide Advanced;
    var a, g := ClearTimer(sys.agent), sys.agent.timer.value;
    var t := FirstTask(g, true, entries);
    var r := Advanced(a, t);
    var next := WithTask(sys, task, r);
    AdvancedKeepsPending(a, t);
    forall s | Live(r.0, s) ensures DeadlineComes(next, s) {
      var runId := a.pending[s].runId;
      var k :| 0 <= k < |entries| && entries[k] == (s, runId);
      AdvancedKeepsAhead(a, t, k);
      assert AheadOf(next, task, runId);
    }
  }

  lemma ReplyCovered(sys: System, task: nat, reply: Reply)
    requires Inv(sys) && Covered(sys) && task in sys.tasks
    ensures Covered(WithTask(sys, task, Resumed(sys.agent, sys.tasks[task], reply)))
  {
    hide Advanced, Settled, AgentOk, Resumed, Ahead;
    var a, t := sys.agent, sys.tasks[task];
    var r := Resumed(a, t, reply);
    var next := WithTask(sys, task, r);
    assert TaskOk(t, a, sys.owner, sys.reasons);
    ResumedFrame(a, t, reply);
    forall s | Live(r.0, s) ensures Live(a, s) && a.pending[s].runId == r.0.pending[s].runId {
      StillLive(a, t, reply, s, sys.owner, sys.reasons);
    }
    forall id, s | WouldClear(next, id) && Live(next.agent, s)
      ensures next.agent.pending[s].runId in Ahead(next.tasks[id])
    {
      assert WouldClear(sys, id) && Live(a, s);
      if id == task {
        ResumedKeepsAhead(a, t, reply, s, sys.owner, sys.reasons);
      }
    }
    forall s | Live(r.0, s) ensures DeadlineComes(next, s) {
      assert DeadlineComes(sys, s);
      var runId := a.pending[s].runId;
      if a.timer.None? {
        var id :| AheadOf(sys, id, runId);
        if id == task {
          ResumedKeepsAhead(a, t, reply, s, sys.owner, sys.reasons);
        }
        assert AheadOf(next, id, runId);
      } else if r.0.timer.None? {
        StillPending(r.0, s);
        assert WouldClear(sys, task);
        ResumedKeepsAhead(a, t, reply, s, sys.owner, sys.reasons);
      }
    }
  }

  lemma StillPending(a: Agent, s: string)
    requires Live(a, s)
    ensures a.pending != map[]
  {}

  lemma StillLive(a: Agent, t: Task, reply: Reply, s: string, owner: map<string, string>, reasons: seq<string>)
    requires AgentOk(a, owner, reasons) && TaskOk(t, a, owner, reasons) && Live(Resumed(a, t, reply).0, s)
    ensures Live(a, s) && a.pending[s].runId == Resumed(a, t, reply).0.pending[s].runId
  {
    hide AgentOk, TaskOk, Resumed;
    ResumedOk(a, t, reply, owner, reasons);
    ResumedFrame(a, t, reply);
  }

  /** A resumed reconciliation leaves the live context alone, and clears the timer only without prompts or at its
      own end, when it belongs to the newest disconnect and is not to keep it. */
  lemma ResumedFrame(a: Agent, t: Task, reply: Reply)
    ensures var r := Resumed(a, t, reply);
            && r.0.active == a.active && r.0.generation == a.generation
            && (|| r.0.timer == a.timer
                || (r.0.timer.None? && r.0.pending == map[])
                || (r.0.timer.None? && t.generation == a.generation && !t.keep && r.1.None?))
            && (r.1.Some? ==> r.1.value.generation == t.generation && r.1.value.deadline == t.deadline
                              && (t.keep ==> r.1.value.keep))
  {
    hide Advanced;
    if t.waiting.None? {
      AdvancedKeepsPending(a, t);
      AdvancedKeepsFlag(a, t);
    }
  }

  lemma {:induction false} AdvancedKeepsFlag(a: Agent, t: Task)
    ensures var r := Advanced(a, t); r.1.Some? ==> r.1.value.keep == t.keep
    decreases |t.todo|
  {
    if t.todo != [] && !Eligible(a, t.todo[0], t.generation) {
      AdvancedKeepsFlag(a, t.(todo := t.todo[1..], visited := t.visited + {t.todo[0].1}));
    }
  }

  /** Without keeping the timer, a settled reply leaves nothing of the prompt asked about. */
  lemma SettledDropsOrKeeps(
    a: Agent, w: Wait, observed: nat, reply: Reply, owner: map<string, string>, reasons: seq<string>)
    requires AgentOk(a, owner, reasons) && EntryOk((w.sessionId, w.runId), owner)
    ensures var b := Settled(a, w, observed, false, reply);
            !b.1 ==> forall s :: s in b.0.pending ==> b.0.pending[s].runId != w.runId
  {
    var b := Settled(a, w, observed, false, reply).0;
    forall s | s in b.pending && b.pending[s].runId == w.runId ensures s == w.sessionId {
      assert PromptOk(s, a.pending[s], owner, reasons);
    }
  }

  lemma ResumedKeepsAhead(a: Agent, t: Task, reply: Reply, s: string, owner: map<string, string>, reasons: seq<string>)
    requires AgentOk(a, owner, reasons) && TaskOk(t, a, owner, reasons)
    requires var r := Resumed(a, t, reply);
             && Live(r.0, s) && Live(a, s) && a.pending[s].runId in Ahead(t)
             && (t.deadline || r.1.None? || !r.1.value.keep)
    requires t.generation == a.generation
    ensures var r := Resumed(a, t, reply); r.1.Some? && a.pending[s].runId in Ahead(r.1.value)
  {
    hide Advanced, Settled, AgentOk;
    var runId := a.pending[s].runId;
    assert PromptOk(s, a.pending[s], owner, reasons) by { PendingOk(a, s, owner, reasons); }
    if t.waiting.Some? {
      var w := t.waiting.value;
      SettledOk(a, w, t.generation, t.deadline, reply, owner, reasons);
      if !t.deadline {
        SettledDropsOrKeeps(a, w, t.generation, reply, owner, reasons);
      }
    } else {
      AdvancedKeepsPending(a, t);
      var k :| 0 <= k < |t.todo| && t.todo[k].1 == runId;
      assert EntryOk(t.todo[k], owner);
      AdvancedKeepsAhead(a, t, k);
    }
  }

  lemma PendingOk(a: Agent, s: string, owner: map<string, string>, reasons: seq<string>)
    requires AgentOk(a, owner, reasons) && s in a.pending
    ensures PromptOk(s, a.pending[s], owner, reasons)
  {}

  // ---------------------------------------------------------------- a prompt without a deadline

  ghost function After(sys: System, e: Event): System {
    if Enabled(sys, e) then Step(sys, e) else sys
  }

  lemma RunPush(events: seq<Event>, e: Event)
    ensures Run(events + [e]) == After(Run(events), e)
  {
    hide Step, Enabled;
    assert (events + [e])[..|events|] == events;
  }

  /** Session s has a prompt with the live stamp that no reconciliation knows of, while a deadline for the live
      disconnect is being worked off. */
  ghost predicate Overlooked(sys: System, s: string, id: nat) {
    && Live(sys.agent, s) && sys.agent.pending[s].runId in sys.owner
    && id in sys.tasks && sys.tasks[id].deadline && sys.tasks[id].generation == sys.agent.generation
    && Unknown(sys.tasks, sys.agent.pending[s].runId)
  }

  ghost predicate Unknown(tasks: map<nat, Task>, runId: string) {
    forall id :: id in tasks ==> runId !in Ahead(tasks[id])
  }

  /** How many replies and resumptions a reconciliation has before it, at most. */
  function Left(t: Task): nat {
    2 * |t.todo| + if t.waiting.Some? then 1 else 0
  }

  lemma {:induction false} AdvancedIsShorter(a: Agent, t: Task)
    requires t.waiting.None?
    ensures var r := Advanced(a, t);
            && (r.1.Some? ==> r.1.value.waiting.Some? && |r.1.value.todo| < |t.todo| && Ahead(r.1.value) <= Ahead(t))
            && (r.1.None? && !t.keep && a.generation == t.generation ==> r.0.timer.None?)
    decreases |t.todo|
  {
    if t.todo != [] {
      FirstAhead(t.todo);
      if !Eligible(a, t.todo[0], t.generation) {
        AdvancedIsShorter(a, t.(todo := t.todo[1..], visited := t.visited + {t.todo[0].1}));
      }
    }
  }

  /** A failed reply does nothing to a prompt that was not asked about. */
  lemma FailedSpares(a: Agent, w: Wait, observed: nat, s: string)
    requires s in a.pending && a.pending[s].runId != w.runId
    ensures var b := Settled(a, w, observed, true, Failed).0;
            s in b.pending && b.pending[s] == a.pending[s] && b.active == a.active && b.generation == a.generation
  {}

  /** One failed reply or resumption more: the prompt is overlooked still, or the deadline is worked off and the
      timer cleared. */
  lemma OverlookedStep(sys: System, s: string, id: nat)
    requires Inv(sys) && Overlooked(sys, s, id)
    ensures var next := Step(sys, ReplyEvent(id, Failed));
            && Live(next.agent, s) && next.agent.pending[s] == sys.agent.pending[s]
            && Unknown(next.tasks, next.agent.pending[s].runId)
            && (id in next.tasks ==> Overlooked(next, s, id) && Left(next.tasks[id]) < Left(sys.tasks[id]))
            && (id !in next.tasks ==> next.agent.timer.None?)
  {
    hide Settled, Advanced, AgentOk;
    var a, t := sys.agent, sys.tasks[id];
    assert TaskOk(t, a, sys.owner, sys.reasons);
    if t.waiting.Some? {
      FailedSpares(a, t.waiting.value, t.generation, s);
    } else {
      AdvancedKeepsPending(a, t);
      AdvancedIsShorter(a, t);
    }
  }

  ghost predicate AllReplies(more: seq<Event>) {
    forall e :: e in more ==> e.ReplyEvent?
  }

  /** Working the deadline off leaves the prompt without one. */
  lemma {:induction false} WorkOff(events: seq<Event>, s: string, id: nat) returns (more: seq<Event>)
    requires Overlooked(Run(events), s, id)
    ensures AllReplies(more)
    ensures Live(Run(events + more).agent, s) && !DeadlineComes(Run(events + more), s)
    decreases Left(Run(events).tasks[id])
  {
    hide Inv, Overlooked, Step, Run;
    var e := ReplyEvent(id, Failed);
    RunKeepsInv(events);
    RunPush(events, e);
    OverlookedIsEnabled(Run(events), s, id);
    OverlookedStep(Run(events), s, id);
    if id in Run(events + [e]).tasks {
      var rest := WorkOff(events + [e], s, id);
      more := [e] + rest;
      assert events + more == events + [e] + rest;
    } else {
      more := [e];
    }
  }

  lemma OverlookedIsEnabled(sys: System, s: string, id: nat)
    requires Overlooked(sys, s, id)
    ensures Enabled(sys, ReplyEvent(id, Failed))
  {}

  /** A deadline comes to a prompt that is admitted, and to all others, however the replies fall, exactly when none
      for the live disconnect is being worked off as it is admitted. */
  lemma DeadlineComesIff(events: seq<Event>, s: string, runId: string)
    requires OrderlyRun(events) && Enabled(Run(events), PromptEvent(s, runId))
    ensures (forall more :: AllReplies(more) ==> Covered(Run(events + [PromptEvent(s, runId)] + more)))
       <==> Orderly(Run(events), PromptEvent(s, runId))
  {
    hide Run, Covered, OrderlyRun, Orderly;
    var e := PromptEvent(s, runId);
    if Orderly(Run(events), e) {
      OrderlyPush(events, e);
      forall more | AllReplies(more) ensures Covered(Run(events + [e] + more)) {
        RepliesAreOrderly(events + [e], more);
        DeadlineComesToAll(events + [e] + more);
      }
    } else {
      var id := PromptIsOverlooked(events, s, runId);
      var more := WorkOff(events + [e], s, id);
      assert !Covered(Run(events + [e] + more)) by {
        UncoveredPrompt(Run(events + [e] + more), s);
      }
    }
  }

  /** At no time in the run does a stamped prompt lack a deadline, nor could replies alone make it lack one. */
  ghost predicate AlwaysCovered(events: seq<Event>) {
    forall n, more :: 0 <= n <= |events| && AllReplies(more) ==> Covered(Run(events[..n] + more))
  }

  /** For every run: a deadline comes to every stamped prompt at every time exactly when no prompt is admitted while
      a deadline of the live disconnect is being worked off. */
  lemma {:induction false} DeadlinesComeIff(events: seq<Event>)
    ensures AlwaysCovered(events) <==> OrderlyRun(events)
  {
    hide Run, Covered, OrderlyRun, Orderly;
    if OrderlyRun(events) {
      forall n, more | 0 <= n <= |events| && AllReplies(more) ensures Covered(Run(events[..n] + more)) {
        PrefixIsOrderly(events, n);
        RepliesAreOrderly(events[..n], more);
        DeadlineComesToAll(events[..n] + more);
      }
    }
    if AlwaysCovered(events) {
      if events == [] {
        NoRunIsOrderly();
      } else {
        var init, e := events[..|events| - 1], events[|events| - 1];
        assert events == init + [e];
        forall n, more | 0 <= n <= |init| && AllReplies(more) ensures Covered(Run(init[..n] + more)) {
          assert init[..n] == events[..n];
        }
        DeadlinesComeIff(init);
        LastIsOrderly(init, e);
        OrderlyPush(init, e);
      }
    }
  }

  lemma NoRunIsOrderly()
    ensures OrderlyRun([])
  {}

  lemma {:induction false} PrefixIsOrderly(events: seq<Event>, n: nat)
    requires OrderlyRun(events) && n <= |events|
    ensures OrderlyRun(events[..n])
  {
    if n < |events| {
      PrefixIsOrderly(events[..|events| - 1], n);
      assert events[..|events| - 1][..n] == events[..n];
    } else {
      assert events[..n] == events;
    }
  }

  lemma LastIsOrderly(init: seq<Event>, e: Event)
    requires OrderlyRun(init) && AlwaysCovered(init + [e])
    ensures Orderly(Run(init), e)
  {
    hide Run, Covered, OrderlyRun;
    if e.PromptEvent? && Enabled(Run(init), e) {
      var all := init + [e];
      assert all[..|all|] == all;
      DeadlineComesIff(init, e.sessionId, e.runId);
    }
  }

  lemma UncoveredPrompt(sys: System, s: string)
    requires Live(sys.agent, s) && !DeadlineComes(sys, s)
    ensures !Covered(sys)
  {}

  lemma OrderlyPush(events: seq<Event>, e: Event)
    requires OrderlyRun(events) && Orderly(Run(events), e)
    ensures OrderlyRun(events + [e])
  {
    hide Run, Orderly;
    assert (events + [e])[..|events|] == events;
  }

  lemma {:induction false} RepliesAreOrderly(events: seq<Event>, more: seq<Event>)
    requires OrderlyRun(events) && AllReplies(more)
    ensures OrderlyRun(events + more)
  {
    hide OrderlyRun, Run;
    if more == [] {
      assert events + more == events;
    } else {
      var n := |more| - 1;
      RepliesAreOrderly(events, more[..n]);
      assert more[n] in more;
      OrderlyPush(events + more[..n], more[n]);
      assert events + more == events + more[..n] + [more[n]];
    }
  }

  /** A prompt admitted while a deadline for the live disconnect is being worked off is on no list. */
  lemma PromptIsOverlooked(events: seq<Event>, s: string, runId: string) returns (id: nat)
    requires Enabled(Run(events), PromptEvent(s, runId)) && !Orderly(Run(events), PromptEvent(s, runId))
    ensures Overlooked(Run(events + [PromptEvent(s, runId)]), s, id)
  {
    hide Run, AgentOk, TaskOk;
    var sys := Run(events);
    id :| id in sys.tasks && sys.tasks[id].deadline && sys.tasks[id].generation == sys.agent.generation;
    RunKeepsInv(events);
    RunPush(events, PromptEvent(s, runId));
    assert sys.agent.active.value.generation == sys.agent.generation by { NewestIsLive(sys); }
    forall k | k in sys.tasks ensures runId !in Ahead(sys.tasks[k]) {
      AheadIsOwned(sys.tasks[k], sys.agent, sys.owner, sys.reasons);
    }
  }

  lemma AheadIsOwned(t: Task, a: Agent, owner: map<string, string>, reasons: seq<string>)
    requires TaskOk(t, a, owner, reasons)
    ensures Ahead(t) <= owner.Keys
  {
    assert forall k :: 0 <= k < |t.todo| ==> EntryOk(t.todo[k], owner);
  }

  lemma NewestIsLive(sys: System)
    requires Inv(sys)
    ensures sys.agent.active.Some? ==> sys.agent.active.value.generation == sys.agent.generation
  {}

  /** Not orderly: a prompt admitted while the deadline of the live disconnect is being worked off arms a timer that
      the end of that work clears. The prompt keeps the live stamp, and no deadline comes for it. */
  lemma PromptCanMissDeadline()
    ensures exists events, s :: Live(Run(events).agent, s) && !DeadlineComes(Run(events), s)
  {
    var e1, e2, e3 := PromptEvent("s", "r"), DisconnectEvent("x"), TimerEvent(0, [("s", "r")]);
    var c := Context(1, "x");
    var p := Prompt("r", false, Some(c));
    var owner := map["r" := "s"];
    var s1 := System(Agent(map["s" := Prompt("r", false, None)], None, None, 0, []), map[], owner, [], {}, []);
    var s2 := System(Agent(map["s" := p], Some(1), Some(c), 1, []), map[], owner, ["x"], {}, []);
    var t := Task(1, true, [], Some(Wait("s", "r", c)), false, {"r"}, {}, {"r"});
    var s3 := System(Agent(map["s" := p], None, Some(c), 1, []), map[0 := t], owner, ["x"], {}, []);
    assert Run([]) == START;
    RunPush([], e1);
    assert After(START, e1) == s1;
    RunPush([] + [e1], e2);
    assert After(s1, e2) == s2 by {
      assert Stamped(s1.agent.pending, c) == map["s" := p];
      assert "s" in s1.agent.pending && [] + ["x"] == ["x"];
    }
    RunPush([] + [e1] + [e2], e3);
    TimerTakesOne(s2, p, c);
    assert After(s2, e3) == s3;
    var events := [] + [e1] + [e2] + [e3];
    assert 0 in s3.tasks && !Orderly(s3, PromptEvent("u", "q"));
    var id := PromptIsOverlooked(events, "u", "q");
    var more := WorkOff(events + [PromptEvent("u", "q")], "u", id);
  }

  lemma TimerTakesOne(sys: System, p: Prompt, c: Context)
    requires sys.agent == Agent(map["s" := p], Some(1), Some(c), 1, []) && p == Prompt("r", false, Some(c))
        && c.generation == 1
    ensures Snapshot(sys.agent, [("s", "r")])
    ensures Begun(ClearTimer(sys.agent), 1, true, [("s", "r")])
         == (ClearTimer(sys.agent), Some(Task(1, true, [], Some(Wait("s", "r", c)), false, {"r"}, {}, {"r"})))
  {
    assert ("s", "r") in [("s", "r")] && {} + {"r"} == {"r"};
    assert "s" in sys.agent.pending;
    assert RunIds([("s", "r")]) == {"r"} by {
      FirstAhead([("s", "r")]);
      assert [("s", "r")][1..] == [] && RunIds([]) == {};
    }
    assert [("s", "r")][1..] == [];
  }
}
