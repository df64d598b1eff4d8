/** What the steps of GatewayRuns come to, told by the events of the run alone: which disconnect is live, whose send was
    accepted, and what a reply of agent.wait decides. */
module GatewayVerdicts {
  import opened Text
  import opened GatewayRuns

  // ---------------------------------------------------------------- history

  function Disconnects(events: seq<Event>): nat {
    if events == [] then 0
    else Disconnects(events[..|events| - 1]) + if events[|events| - 1].DisconnectEvent? then 1 else 0
  }

  /** The last disconnect, by its number, when no reconnect came behind it. */
  ghost function LiveDisconnect(events: seq<Event>): Option<nat> {
    if events == [] then None
    else
      var init, e := events[..|events| - 1], events[|events| - 1];
      if e.DisconnectEvent? then Some(Disconnects(events))
      else if e.ReconnectEvent? && Enabled(Run(init), e) then None
      else LiveDisconnect(init)
  }

  /** The send of this run was accepted. */
  ghost predicate WasAccepted(events: seq<Event>, runId: string) {
    events != [] &&
      var init, e := events[..|events| - 1], events[|events| - 1];
      || WasAccepted(init, runId)
      || (e.AcceptedEvent? && e.runId == runId && Enabled(Run(init), e))
  }

  lemma HistoryPush(init: seq<Event>, e: Event, runId: string)
    ensures Disconnects(init + [e]) == Disconnects(init) + if e.DisconnectEvent? then 1 else 0
    ensures LiveDisconnect(init + [e])
         == if e.DisconnectEvent? then Some(Disconnects(init) + 1)
            else if e.ReconnectEvent? && Enabled(Run(init), e) then None else LiveDisconnect(init)
    ensures WasAccepted(init + [e], runId) <==>
              WasAccepted(init, runId) || (e.AcceptedEvent? && e.runId == runId && Enabled(Run(init), e))
  {
    hide Enabled, Run;
    assert (init + [e])[..|init|] == init;
  }

  // ---------------------------------------------------------------- the live disconnect

  lemma StepKeepsActive(sys: System, e: Event)
    requires Enabled(sys, e) && !e.DisconnectEvent?
    ensures var b := Step(sys, e).agent;
            && b.generation == sys.agent.generation
            && b.active == if e.ReconnectEvent? then None else sys.agent.active
  {
    hide Advanced, Resumed;
    var a := sys.agent;
    match e
    case ReconnectEvent(task, entries) =>
      if a.active.Some? {
        AdvancedKeepsPending(a.(active := None), FirstTask(a.active.value.generation, false, entries));
      }
    case TimerEvent(task, entries) => AdvancedKeepsPending(ClearTimer(a), FirstTask(a.timer.value, true, entries));
    case ReplyEvent(task, reply) => ResumedFrame(a, sys.tasks[task], reply);
    case _ =>
  }

  /** The agent's live context and generation are what the events say. */
  lemma {:induction false} LiveIsNewest(events: seq<Event>)
    ensures var a := Run(events).agent;
            && a.generation == Disconnects(events)
            && LiveDisconnect(events) == if a.active.Some? then Some(a.active.value.generation) else None
  {
    if events != [] {
      hide Run, Step, Enabled;
      var init, e := events[..|events| - 1], events[|events| - 1];
      assert events == init + [e];
      LiveIsNewest(init);
      RunPush(init, e);
      HistoryPush(init, e, "");
      if e.DisconnectEvent? {
        DisconnectIsEnabled(Run(init), e);
      } else if Enabled(Run(init), e) {
        StepKeepsActive(Run(init), e);
      }
    } else {
      NothingYet();
    }
  }

  lemma NothingYet()
    ensures Run([]) == START
  {}

  lemma DisconnectIsEnabled(sys: System, e: Event)
    requires e.DisconnectEvent?
    ensures Enabled(sys, e)
    ensures var b := Step(sys, e).agent;
            b.generation == sys.agent.generation + 1 && b.active.Some? && b.active.value.generation == b.generation
  {}

  // ---------------------------------------------------------------- accepted sends

  /** b's prompts are a's, their sends as they were. */
  ghost predicate SameSends(a: Agent, b: Agent) {
    forall s :: s in b.pending ==>
      && s in a.pending && a.pending[s].runId == b.pending[s].runId
      && a.pending[s].sendAccepted == b.pending[s].sendAccepted
  }

  lemma SettledKeepsSends(a: Agent, w: Wait, observed: nat, deadline: bool, reply: Reply)
    ensures SameSends(a, Settled(a, w, observed, deadline, reply).0)
  {
    hide ShouldReject;
  }

  lemma StepKeepsSends(sys: System, e: Event)
    requires Enabled(sys, e) && !e.PromptEvent? && !e.AcceptedEvent?
    ensures SameSends(sys.agent, Step(sys, e).agent)
  {
    hide Advanced, Settled;
    var a := sys.agent;
    match e
    case ReconnectEvent(task, entries) =>
      if a.active.Some? {
        AdvancedKeepsPending(a.(active := None), FirstTask(a.active.value.generation, false, entries));
      }
    case TimerEvent(task, entries) => AdvancedKeepsPending(ClearTimer(a), FirstTask(a.timer.value, true, entries));
    case ReplyEvent(task, reply) =>
      var t := sys.tasks[task];
      if t.waiting.Some? {
        SettledKeepsSends(a, t.waiting.value, t.generation, t.deadline, reply);
      } else {
        AdvancedKeepsPending(a, t);
      }
    case _ =>
  }

  lemma {:induction false} AcceptedIsOwned(events: seq<Event>, runId: string)
    requires WasAccepted(events, runId)
    ensures runId in Run(events).owner
  {
    hide Step, Enabled, Run;
    var init, e := events[..|events| - 1], events[|events| - 1];
    assert events == init + [e];
    RunPush(init, e);
    HistoryPush(init, e, runId);
    if WasAccepted(init, runId) {
      AcceptedIsOwned(init, runId);
    }
    if Enabled(Run(init), e) {
      OwnersStay(Run(init), e, runId);
    }
  }

  lemma OwnersStay(sys: System, e: Event, runId: string)
    requires Enabled(sys, e)
    ensures runId in sys.owner || (e.AcceptedEvent? && e.runId == runId) ==> runId in Step(sys, e).owner
  {
    hide Advanced, Resumed, Begun;
  }

  /** A pending prompt is marked as sent exactly when its send was accepted. */
  lemma {:induction false} AcceptedIsMarked(events: seq<Event>, s: string)
    requires s in Run(events).agent.pending
    ensures Run(events).agent.pending[s].sendAccepted <==> WasAccepted(events, Run(events).agent.pending[s].runId)
  {
    hide Step, Run, Enabled, Inv;
    if events == [] {
      NothingYet();
      assert false;
    } else {
      var init, e := events[..|events| - 1], events[|events| - 1];
      assert events == init + [e];
      var before, after := Run(init), Run(events);
      var runId := after.agent.pending[s].runId;
      RunPush(init, e);
      RunKeepsInv(init);
      HistoryPush(init, e, runId);
      if s in before.agent.pending && before.agent.pending[s].runId == runId {
        AcceptedIsMarked(init, s);
      }
      if Enabled(before, e) {
        if e.PromptEvent? || e.AcceptedEvent? {
          if WasAccepted(init, runId) {
            AcceptedIsOwned(init, runId);
          }
          MarkedByStep(before, e, s);
        } else {
          StepKeepsSends(before, e);
        }
      }
    }
  }

  lemma MarkedByStep(sys: System, e: Event, s: string)
    requires Inv(sys) && Enabled(sys, e) && (e.PromptEvent? || e.AcceptedEvent?) && s in Step(sys, e).agent.pending
    ensures var a, p := sys.agent, Step(sys, e).agent.pending[s];
            if e.PromptEvent? && p.runId == e.runId then !p.sendAccepted && p.runId !in sys.owner
            else
              && s in a.pending && a.pending[s].runId == p.runId
              && p.sendAccepted == (a.pending[s].sendAccepted || (e.AcceptedEvent? && e.runId == p.runId))
  {
    if s in sys.agent.pending {
      PendingIsOwned(sys, s);
    }
  }

  // ---------------------------------------------------------------- live stamps

  /** While a disconnect is live, every pending prompt carries its stamp. */
  ghost predicate AllStamped(a: Agent) {
    a.active.Some? ==> forall s :: s in a.pending ==> a.pending[s].context == a.active
  }

  lemma SettledKeepsStamps(a: Agent, w: Wait, observed: nat, deadline: bool, reply: Reply)
    requires AllStamped(a)
    ensures AllStamped(Settled(a, w, observed, deadline, reply).0)
  {}

  lemma StepKeepsStamps(sys: System, e: Event)
    requires AllStamped(sys.agent) && Enabled(sys, e)
    ensures AllStamped(Step(sys, e).agent)
  {
    hide Advanced, Settled;
    var a := sys.agent;
    match e
    case ReconnectEvent(task, entries) => StepKeepsActive(sys, e);
    case TimerEvent(task, entries) => AdvancedKeepsPending(ClearTimer(a), FirstTask(a.timer.value, true, entries));
    case ReplyEvent(task, reply) =>
      var t := sys.tasks[task];
      if t.waiting.Some? {
        SettledKeepsStamps(a, t.waiting.value, t.generation, t.deadline, reply);
      } else {
        AdvancedKeepsPending(a, t);
      }
    case _ =>
  }

  /** In every reachable state: as long as no reconnect followed the last disconnect, every pending prompt carries its
      stamp, admitted before it or since. */
  lemma {:induction false} LiveStampsAll(events: seq<Event>)
    ensures AllStamped(Run(events).agent)
  {
    hide Run, Step, Enabled, AllStamped;
    if events == [] {
      NothingYet();
      assert AllStamped(IDLE) by { NoneStamped(); }
    } else {
      var init, e := events[..|events| - 1], events[|events| - 1];
      assert events == init + [e];
      LiveStampsAll(init);
      RunPush(init, e);
      if Enabled(Run(init), e) {
        StepKeepsStamps(Run(init), e);
      }
    }
  }

  lemma NoneStamped()
    ensures AllStamped(IDLE)
  {}

  // ---------------------------------------------------------------- what a reply decides

  /** The prompt that the reconciliation waits for is still the session's. */
  predicate StillThere(a: Agent, w: Wait) {
    w.sessionId in a.pending && a.pending[w.sessionId].runId == w.runId
  }

  /** A deadline's reply that does not end the prompt: the prompt is rejected exactly when its send was never accepted
      or the gateway has been away ever since the disconnect of its stamp; otherwise it stays, without the stamp. */
  lemma DeadlineVerdict(events: seq<Event>, task: nat, reply: Reply)
    requires task in Run(events).tasks
    requires var t := Run(events).tasks[task];
             t.deadline && t.waiting.Some? && StillThere(Run(events).agent, t.waiting.value)
             && Run(events).agent.pending[t.waiting.value.sessionId].context == Some(t.waiting.value.context)
    requires reply == Failed || reply == StatusOther
    ensures var t := Run(events).tasks[task];
            var a, b, w := Run(events).agent, Run(events + [ReplyEvent(task, reply)]).agent, t.waiting.value;
            if !WasAccepted(events, w.runId) || LiveDisconnect(events) == Some(w.context.generation) then
              && b.pending == a.pending - {w.sessionId}
              && b.rejected == a.rejected
                   + [Rejection(w.runId, t.generation, Some(w.context.generation), w.context.reason)]
              && b.timer == if b.pending == map[] then None else a.timer
            else
              b == a.(pending := a.pending[w.sessionId := a.pending[w.sessionId].(context := None)])
  {
    hide Run, Enabled, LiveDisconnect, WasAccepted;
    var sys := Run(events);
    var w := sys.tasks[task].waiting.value;
    RunPush(events, ReplyEvent(task, reply));
    ReplyIsEnabled(sys, task, reply);
    LiveIsNewest(events);
    AcceptedIsMarked(events, w.sessionId);
  }

  lemma ReplyIsEnabled(sys: System, task: nat, reply: Reply)
    requires task in sys.tasks
    ensures Enabled(sys, ReplyEvent(task, reply))
  {}

  /** Every other reply: a prompt that is reported finished goes without a rejection, whatever its stamp; all else
      stays as it is. The timer is to be kept exactly when a reconnect's question brought no end of the prompt. */
  lemma ReplyVerdict(events: seq<Event>, task: nat, reply: Reply)
    requires task in Run(events).tasks && Run(events).tasks[task].waiting.Some?
    ensures var t := Run(events).tasks[task];
            var a, w := Run(events).agent, t.waiting.value;
            var after := Run(events + [ReplyEvent(task, reply)]);
            var b, there := after.agent, StillThere(a, w);
            && task in after.tasks
            && (after.tasks[task].keep <==>
                  || t.keep
                  || (!t.deadline && (reply == Failed || (reply == StatusOther && there))))
            && (there && (reply == StatusOk || reply == StatusError) ==>
                  && b.pending == a.pending - {w.sessionId} && b.rejected == a.rejected
                  && b.timer == if b.pending == map[] then None else a.timer)
            && (!there ==> b == a)
            && (there && (reply == Failed || reply == StatusOther) ==>
                  (!t.deadline || a.pending[w.sessionId].context != Some(w.context) ==> b == a))
  {
    hide Run, Enabled;
    var sys := Run(events);
    RunPush(events, ReplyEvent(task, reply));
    ReplyIsEnabled(sys, task, reply);
    RunKeepsInv(events);
    assert TaskOk(sys.tasks[task], sys.agent, sys.owner, sys.reasons);
  }

  /** A reconnect behind a live disconnect asks about every pending prompt: all are in the scope of the
      reconciliation that it begins, with its stamp. */
  lemma ReconnectAsksAll(events: seq<Event>, e: Event, s: string)
    requires e.ReconnectEvent? && Enabled(Run(events), e) && LiveDisconnect(events).Some?
    requires s in Run(events).agent.pending
    ensures var after := Run(events + [e]);
            && after.agent.pending == Run(events).agent.pending && e.task in after.tasks
            && after.tasks[e.task].generation == LiveDisconnect(events).value && !after.tasks[e.task].deadline
            && after.agent.pending[s].runId in Ahead(after.tasks[e.task])
  {
    hide Run, LiveDisconnect;
    var sys := Run(events);
    var a := sys.agent.(active := None);
    LiveIsNewest(events);
    LiveStampsAll(events);
    RunPush(events, e);
    var t := FirstTask(sys.agent.active.value.generation, false, e.entries);
    var k :| 0 <= k < |e.entries| && e.entries[k] == (s, a.pending[s].runId);
    AdvancedKeepsAhead(a, t, k);
    AdvancedKeepsPending(a, t);
  }

  /** A failed send: its prompt stays, and is not rejected, exactly when it is still pending and the gateway was closed;
      otherwise the session has no prompt any more, and the failed one is rejected. */
  lemma FailedSendVerdict(events: seq<Event>, s: string, runId: string, gatewayClosed: bool)
    requires Enabled(Run(events), SendFailedEvent(s, runId, gatewayClosed))
    ensures var before, after := Run(events), Run(events + [SendFailedEvent(s, runId, gatewayClosed)]);
            var a, b := before.agent, after.agent;
            if gatewayClosed && s in a.pending && a.pending[s].runId == runId then
              b == a && after.refused == before.refused
            else
              && b.pending == a.pending - {s} && b.rejected == a.rejected && b.active == a.active
              && b.timer == (if b.pending == map[] then None else a.timer)
              && after.refused == before.refused + [Refusal(runId, |a.rejected|)]
  {
    hide Run;
    RunPush(events, SendFailedEvent(s, runId, gatewayClosed));
    assert Run(events).refused + [] == Run(events).refused;
  }

  /** A new prompt takes its session's place among the pending ones, with the stamp of the live disconnect; when there
      is one, the deadline timer runs. */
  lemma PromptVerdict(events: seq<Event>, s: string, runId: string)
    requires Enabled(Run(events), PromptEvent(s, runId))
    ensures var a, b := Run(events).agent, Run(events + [PromptEvent(s, runId)]).agent;
            && b.pending.Keys == a.pending.Keys + {s}
            && (forall k :: k in a.pending && k != s ==> b.pending[k] == a.pending[k])
            && b.pending[s].runId == runId && !b.pending[s].sendAccepted
            && b.pending[s].Stamp() == LiveDisconnect(events)
            && b.timer == if LiveDisconnect(events).Some? then Some(Disconnects(events)) else a.timer
  {
    hide Run, LiveDisconnect;
    RunPush(events, PromptEvent(s, runId));
    LiveIsNewest(events);
    RunKeepsInv(events);
  }
}
