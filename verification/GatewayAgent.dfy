/** The agent of src/acp/translator.ts: its fields, and its methods cut at their awaits. Each method is proved
    against the function of GatewayRuns that the steps of a run are made of. A reconciliation that waits at an await
    is a value: what its local variables hold. */
module GatewayAgent {
  import opened Text
  import opened GatewayRuns
  import Sessions = SessionStore

  class PendingPrompt {
    const sessionId: string
    const idempotencyKey: string
    var sendAccepted: bool
    var disconnectContext: Option<Context>

    constructor (sessionId: string, idempotencyKey: string, disconnectContext: Option<Context>)
      ensures this.sessionId == sessionId && this.idempotencyKey == idempotencyKey
      ensures View() == Prompt(idempotencyKey, false, disconnectContext)
    {
      this.sessionId, this.idempotencyKey := sessionId, idempotencyKey;
      this.disconnectContext, sendAccepted := disconnectContext, false;
    }

    function View(): Prompt reads this {
      Prompt(idempotencyKey, sendAccepted, disconnectContext)
    }
  }

  /** An entry of the snapshot that a reconciliation works through. */
  type Entry = (string, PendingPrompt)

  function Ids(entries: seq<Entry>): (r: seq<(string, string)>)
    ensures |r| == |entries|
    ensures forall k :: 0 <= k < |entries| ==> r[k] == (entries[k].0, entries[k].1.idempotencyKey)
  {
    if entries == [] then [] else [(entries[0].0, entries[0].1.idempotencyKey)] + Ids(entries[1..])
  }

  /** reconcilePendingPrompts at an await: its parameters, the entries still to visit, the prompt asked about with the
      context it was stamped with then, and whether to keep the timer. */
  datatype Reconciliation = Reconciliation(
    observed: nat, deadlineExpired: bool, pendingEntries: seq<Entry>, waiting: Option<(PendingPrompt, Context)>,
    keepDisconnectTimer: bool)
  {
    predicate Models(t: Task) {
      && t.generation == observed && t.deadline == deadlineExpired && t.keep == keepDisconnectTimer
      && t.todo == Ids(pendingEntries)
      && t.waiting == if waiting.None? then None
                      else Some(Wait(waiting.value.0.sessionId, waiting.value.0.idempotencyKey, waiting.value.1))
    }
  }

  ghost predicate OneEach(prompts: set<PendingPrompt>) {
    forall p, q :: p in prompts && q in prompts && p.idempotencyKey == q.idempotencyKey ==> p == q
  }

  lemma AdvancedCases(a: Agent, t: Task)
    ensures t.todo == [] ==>
        Advanced(a, t) == (if !t.keep && a.generation == t.generation then ClearTimer(a) else a, None)
    ensures t.todo != [] && Eligible(a, t.todo[0], t.generation) ==>
              Advanced(a, t) == (a, Some(t.(todo := t.todo[1..],
                waiting := Some(Wait(t.todo[0].0, t.todo[0].1, a.pending[t.todo[0].0].context.value)),
                asked := t.asked + {t.todo[0].1})))
    ensures t.todo != [] && !Eligible(a, t.todo[0], t.generation) ==>
              Advanced(a, t) == Advanced(a, t.(todo := t.todo[1..], visited := t.visited + {t.todo[0].1}))
  {}

  class AcpGatewayAgent {
    var pendingPrompts: map<string, PendingPrompt>
    /** The generation of the armed timer. */
    var disconnectTimer: Option<nat>
    var activeDisconnectContext: Option<Context>
    var disconnectGeneration: nat
    const sessionStore: Sessions.AcpSessionStore
    /** History of the rejections. */
    ghost var rejected: seq<Rejection>
    /** All prompts that there have been. */
    ghost var issued: set<PendingPrompt>

    /** Prompts sit under their sessions, and run ids are not given out twice: a captured prompt object is the one in
        the map whenever its run id is. */
    ghost predicate Valid()
      reads this, pendingPrompts.Values
    {
      && (forall s :: s in pendingPrompts ==> pendingPrompts[s].sessionId == s && pendingPrompts[s] in issued)
      && OneEach(issued)
    }

    ghost function View(): Agent reads this, pendingPrompts.Values {
      Agent(map s | s in pendingPrompts :: pendingPrompts[s].View(),
            disconnectTimer, activeDisconnectContext, disconnectGeneration, rejected)
    }

    /** What a reconciliation holds on to was issued here. */
    ghost predicate Captured(r: Reconciliation) reads this {
      && (forall e :: e in r.pendingEntries ==> e.1.sessionId == e.0 && e.1 in issued)
      && (r.waiting.Some? ==> r.waiting.value.0 in issued)
    }

    constructor (sessionStore: Sessions.AcpSessionStore)
      ensures Valid() && View() == IDLE && issued == {} && this.sessionStore == sessionStore
    {
      this.sessionStore, issued := sessionStore, {};
      pendingPrompts, disconnectTimer, activeDisconnectContext := map[], None, None;
      disconnectGeneration, rejected := 0, [];
    }

    method GetPendingPrompt(sessionId: string, runId: string) returns (pending: PendingPrompt?)
      ensures pending == if sessionId in pendingPrompts && pendingPrompts[sessionId].idempotencyKey == runId
                         then pendingPrompts[sessionId] else null
    {
      if sessionId !in pendingPrompts || pendingPrompts[sessionId].idempotencyKey != runId {
        return null;
      }
      return pendingPrompts[sessionId];
    }

    /** The prompt with a captured object's run id is that object. */
    lemma SameObject(pending: PendingPrompt)
      requires Valid() && pending in issued
      ensures var s := pending.sessionId;
              && (Current(View(), s, pending.idempotencyKey) <==> s in pendingPrompts && pendingPrompts[s] == pending)
              && (Current(View(), s, pending.idempotencyKey) ==> View().pending[s] == pending.View())
              && (s in pendingPrompts && pendingPrompts[s].idempotencyKey == pending.idempotencyKey ==>
                    pendingPrompts[s] == pending)
    {}

    method ClearDisconnectTimer()
      requires Valid()
      modifies this`disconnectTimer
      ensures Valid() && View() == ClearTimer(old(View()))
    {
      if disconnectTimer.None? {
        return;
      }
      disconnectTimer := None;
    }

    method ArmDisconnectTimer(context: Context)
      requires Valid()
      modifies this`disconnectTimer
      ensures Valid() && View() == old(View()).(timer := Some(context.generation))
    {
      ClearDisconnectTimer();
      disconnectTimer := Some(context.generation);
    }

    method HandleGatewayDisconnect(reason: string)
      requires Valid()
      modifies this`disconnectGeneration, this`activeDisconnectContext, this`disconnectTimer, pendingPrompts.Values
      ensures Valid() && pendingPrompts == old(pendingPrompts)
      ensures View() == Disconnected(old(View()), reason)
    {
      hide OneEach;
      ghost var before := View();
      NoPending();
      var context := NextContext(reason);
      if |pendingPrompts| == 0 {
        assert Stamped(before.pending, context) == before.pending;
        return;
      }
      StampAll(context);
      ArmDisconnectTimer(context);
    }

    method NextContext(reason: string) returns (context: Context)
      requires Valid()
      modifies this`disconnectGeneration, this`activeDisconnectContext
      ensures Valid() && context == Context(old(disconnectGeneration) + 1, reason)
      ensures View() == old(View()).(generation := context.generation, active := Some(context))
    {
      context := Context(disconnectGeneration + 1, reason);
      disconnectGeneration := context.generation;
      activeDisconnectContext := Some(context);
    }

    /** Every pending prompt is stamped with the context. */
    method StampAll(context: Context)
      requires Valid()
      modifies pendingPrompts.Values
      ensures Valid() && View() == old(View()).(pending := Stamped(old(View()).pending, context))
    {
      hide OneEach;
      ghost var before := View();
      var todo := pendingPrompts.Keys;
      while todo != {}
        invariant todo <= pendingPrompts.Keys && Valid()
        invariant forall s :: s in pendingPrompts ==>
          pendingPrompts[s].View()
            == if s in todo then before.pending[s] else before.pending[s].(context := Some(context))
        decreases |todo|
      {
        var s :| s in todo;
        pendingPrompts[s].disconnectContext := Some(context);
        todo := todo - {s};
      }
      assert View().pending == Stamped(before.pending, context);
    }

    lemma NoPending()
      ensures |pendingPrompts| == 0 <==> View().pending == map[]
    {
      assert View().pending.Keys == pendingPrompts.Keys;
      assert |pendingPrompts| == 0 <==> pendingPrompts.Keys == {};
    }

    /** Drops the live context and begins a reconciliation for it, if there was one. */
    method HandleGatewayReconnect() returns (next: Option<Reconciliation>, ghost entries: seq<(string, string)>)
      requires Valid()
      modifies this`activeDisconnectContext, this`disconnectTimer
      ensures Valid() && Snapshot(old(View()), entries)
      ensures if old(View()).active.None? then View() == old(View()) && next == None
              else
                var begun := Begun(old(View()).(active := None), old(View()).active.value.generation, false, entries);
                View() == begun.0 && Suspended(next, begun.1)
    {
      hide Begun, OneEach;
      var context := activeDisconnectContext;
      activeDisconnectContext := None;
      assert View() == old(View()).(active := None);
      if context.None? {
        var snapshot := Entries();
        ListsSnapshot(snapshot);
        return None, Ids(snapshot);
      }
      next, entries := BeginReconcile(context.value.generation, false);
    }

    /** The timer's callback. */
    method TimerFired(generation: nat) returns (next: Option<Reconciliation>, ghost entries: seq<(string, string)>)
      requires Valid() && disconnectTimer == Some(generation)
      modifies this`disconnectTimer
      ensures Valid() && Snapshot(old(View()), entries)
      ensures var begun := Begun(ClearTimer(old(View())), old(View()).timer.value, true, entries);
              View() == begun.0 && Suspended(next, begun.1)
    {
      hide Begun, OneEach;
      disconnectTimer := None;
      assert View() == ClearTimer(old(View()));
      next, entries := BeginReconcile(generation, true);
    }

    /** The reconciliation goes on as the model's does. */
    ghost predicate Suspended(next: Option<Reconciliation>, t: Option<Task>) reads this {
      next.Some? == t.Some? && (next.Some? ==> next.value.Models(t.value) && Captured(next.value))
    }

    /** The part of prompt that puts the prompt on the map. */
    method AdmitPrompt(sessionId: string, runId: string)
      requires Valid() && forall p :: p in issued ==> p.idempotencyKey != runId
      modifies this`pendingPrompts, this`disconnectTimer, this`issued
      ensures Valid() && sessionId in pendingPrompts && fresh(pendingPrompts[sessionId])
      ensures issued == old(issued) + {pendingPrompts[sessionId]}
      ensures View() == Admitted(old(View()), sessionId, runId)
    {
      var pending := new PendingPrompt(sessionId, runId, activeDisconnectContext);
      SetPending(pending);
      if activeDisconnectContext.Some? && disconnectTimer.None? {
        ArmDisconnectTimer(activeDisconnectContext.value);
      }
    }

    /** `pendingPrompts.set(sessionId, pending)` */
    method SetPending(pending: PendingPrompt)
      requires Valid() && forall p :: p in issued ==> p.idempotencyKey != pending.idempotencyKey
      modifies this`pendingPrompts, this`issued
      ensures Valid() && pendingPrompts == old(pendingPrompts)[pending.sessionId := pending]
      ensures issued == old(issued) + {pending}
      ensures View() == old(View()).(pending := old(View()).pending[pending.sessionId := pending.View()])
    {
      hide OneEach;
      ghost var before := View();
      OneMore(pending);
      issued := issued + {pending};
      pendingPrompts := pendingPrompts[pending.sessionId := pending];
      assert View().pending == before.pending[pending.sessionId := pending.View()];
    }

    lemma OneMore(pending: PendingPrompt)
      requires OneEach(issued) && forall p :: p in issued ==> p.idempotencyKey != pending.idempotencyKey
      ensures OneEach(issued + {pending})
    {}

    method AcceptSend(sessionId: string, runId: string)
      requires Valid()
      modifies pendingPrompts.Values
      ensures Valid() && View() == Accepted(old(View()), sessionId, runId)
    {
      ghost var before := View();
      var pending := GetPendingPrompt(sessionId, runId);
      if pending != null {
        pending.sendAccepted := true;
        assert View().pending == before.pending[sessionId := pending.View()];
      }
    }

    /** `pendingPrompts.delete(sessionId)` */
    method DeletePending(sessionId: string)
      requires Valid()
      modifies this`pendingPrompts
      ensures Valid() && pendingPrompts == old(pendingPrompts) - {sessionId}
      ensures View() == old(View()).(pending := old(View()).pending - {sessionId})
    {
      ghost var before := View();
      pendingPrompts := pendingPrompts - {sessionId};
      assert View().pending == before.pending - {sessionId};
    }

    /** `sessionStore.clearActiveRun(sessionId)` */
    method ClearRun(now: int, sessionId: string)
      requires Valid() && sessionStore.Valid()
      modifies sessionStore`runIdToSessionId, sessionStore.sessions.Values
      ensures Valid() && View() == old(View()) && sessionStore.Valid()
      ensures sessionStore.View() == Sessions.Cleared(old(sessionStore.View()), now, sessionId)
    {
      hide Sessions.AcpSessionStore.Valid, Sessions.AcpSessionStore.View, Sessions.Cleared, OneEach;
      sessionStore.ClearActiveRun(now, sessionId);
      assert forall s :: s in pendingPrompts ==> pendingPrompts[s].View() == old(pendingPrompts[s].View());
    }

    method ClearTimerWithoutPrompts()
      requires Valid()
      modifies this`disconnectTimer
      ensures Valid()
      ensures View() == if old(View()).pending == map[] then ClearTimer(old(View())) else old(View())
    {
      NoPending();
      if |pendingPrompts| == 0 {
        ClearDisconnectTimer();
      }
    }

    /** What a prompt's end is made of: the prompt goes, the session's run is cleared, and without prompts the timer. */
    method DropPrompt(now: int, sessionId: string)
      requires Valid()
      requires sessionStore.Valid()
      modifies this`pendingPrompts, this`disconnectTimer
      modifies sessionStore`runIdToSessionId, sessionStore.sessions.Values
      ensures sessionStore.Valid()
      ensures Valid() && View() == Dropped(old(View()), sessionId)
      ensures pendingPrompts == old(pendingPrompts) - {sessionId}
      ensures sessionStore.View() == Sessions.Cleared(old(sessionStore.View()), now, sessionId)
    {
      hide Sessions.AcpSessionStore.Valid, Sessions.AcpSessionStore.View, Sessions.Cleared, Valid, View;
      DeletePending(sessionId);
      ClearRun(now, sessionId);
      ClearTimerWithoutPrompts();
    }

    /** The handler of a failed send; returns whether it rejects the prompt of this run. */
    method FailSend(now: int, sessionId: string, runId: string, gatewayClosed: bool) returns (rejects: bool)
      requires Valid()
      requires sessionStore.Valid()
      modifies this`pendingPrompts, this`disconnectTimer
      modifies sessionStore`runIdToSessionId, sessionStore.sessions.Values
      ensures sessionStore.Valid()
      ensures Valid() && View() == SendFailed(old(View()), sessionId, runId, gatewayClosed)
      ensures sessionStore.View()
           == if rejects then Sessions.Cleared(old(sessionStore.View()), now, sessionId) else old(sessionStore.View())
      ensures rejects == SendRejects(old(View()), sessionId, runId, gatewayClosed)
    {
      hide Sessions.AcpSessionStore.Valid, Sessions.AcpSessionStore.View, Sessions.Cleared, Dropped, OneEach;
      var pending := GetPendingPrompt(sessionId, runId);
      if gatewayClosed && pending != null {
        return false;
      }
      DropPrompt(now, sessionId);
      return true;
    }

    method RejectPendingPrompt(now: int, pending: PendingPrompt, ghost observed: nat, ghost reason: string)
      requires Valid() && pending in issued
      requires sessionStore.Valid()
      modifies this`pendingPrompts, this`disconnectTimer, this`rejected
      modifies sessionStore`runIdToSessionId, sessionStore.sessions.Values
      ensures sessionStore.Valid()
      ensures Valid()
      ensures var current := Current(old(View()), pending.sessionId, pending.idempotencyKey);
              && View() == (if current then Rejected(old(View()), pending.sessionId, observed, reason) else old(View()))
              && sessionStore.View()
              == if current then Sessions.Cleared(old(sessionStore.View()), now, pending.sessionId)
                 else old(sessionStore.View())
    {
      hide Sessions.AcpSessionStore.Valid, Sessions.AcpSessionStore.View, Sessions.Cleared, OneEach, Valid, View;
      SameObject(pending);
      var currentPending := GetPendingPrompt(pending.sessionId, pending.idempotencyKey);
      if currentPending != pending {
        return;
      }
      ghost var stamp := pending.View().Stamp();
      DropPrompt(now, pending.sessionId);
      Log(Rejection(pending.idempotencyKey, observed, stamp, reason));
    }

    ghost method Log(r: Rejection)
      requires Valid()
      modifies this`rejected
      ensures Valid() && View() == old(View()).(rejected := old(View()).rejected + [r])
    {
      rejected := rejected + [r];
    }

    method ClearPendingDisconnectState(pending: PendingPrompt, context: Context)
      requires Valid() && pending in issued
      modifies pending`disconnectContext
      ensures Valid()
      ensures View() == if Current(old(View()), pending.sessionId, pending.idempotencyKey)
                        then Unstamped(old(View()), pending.sessionId, context) else old(View())
    {
      ghost var before := View();
      if pending.disconnectContext != Some(context) {
        return;
      }
      pending.disconnectContext := None;
      if pending.sessionId in pendingPrompts && pendingPrompts[pending.sessionId] == pending {
        assert View().pending == before.pending[pending.sessionId := pending.View()];
      } else {
        assert View().pending == before.pending;
      }
    }

    method ShouldRejectPendingAtDisconnectDeadline(pending: PendingPrompt, context: Context) returns (r: bool)
      ensures r == ShouldReject(View(), pending.View(), context)
    {
      r := && pending.disconnectContext == Some(context)
           && (!pending.sendAccepted
               || (activeDisconnectContext.Some? && activeDisconnectContext.value.generation == context.generation));
    }

    /** reconcilePendingPrompt behind its await; returns whether to keep the timer. */
    method SettleReply(
      now: int, pending: PendingPrompt, context: Context, ghost observed: nat, deadlineExpired: bool, reply: Reply)
      returns (shouldKeepPending: bool)
      requires Valid() && pending in issued
      requires sessionStore.Valid()
      modifies this`pendingPrompts, this`disconnectTimer, this`rejected, pending`disconnectContext
      modifies sessionStore`runIdToSessionId, sessionStore.sessions.Values
      ensures sessionStore.Valid()
      ensures Valid()
      ensures (View(), shouldKeepPending)
           == Settled(old(View()), Wait(pending.sessionId, pending.idempotencyKey, context),
                      observed, deadlineExpired, reply)
      ensures sessionStore.View()
           == if pending.sessionId in old(View()).pending && pending.sessionId !in View().pending
              then Sessions.Cleared(old(sessionStore.View()), now, pending.sessionId) else old(sessionStore.View())
    {
      hide Sessions.AcpSessionStore.Valid, Sessions.AcpSessionStore.View, Sessions.Cleared, OneEach, Valid;
      hide Rejected, Unstamped, Dropped, View;
      SameObject(pending);
      ghost var a := View();
      if pending.sessionId in a.pending {
        GoneOrThere(a, pending.sessionId, observed, context);
      }
      if reply == Failed {
        if deadlineExpired {
          var reject := ShouldRejectPendingAtDisconnectDeadline(pending, context);
          if reject {
            RejectPendingPrompt(now, pending, observed, context.reason);
            return false;
          }
          ClearPendingDisconnectState(pending, context);
          return false;
        }
        return true;
      }
      var currentPending := GetPendingPrompt(pending.sessionId, pending.idempotencyKey);
      if currentPending == null {
        return false;
      }
      if reply == StatusOk || reply == StatusError {
        DropPrompt(now, pending.sessionId);
        return false;
      }
      if deadlineExpired {
        var reject := ShouldRejectPendingAtDisconnectDeadline(currentPending, context);
        if reject {
          if currentPending.disconnectContext.None? {
            return false;
          }
          RejectPendingPrompt(now, currentPending, observed, currentPending.disconnectContext.value.reason);
          return false;
        }
        ClearPendingDisconnectState(currentPending, context);
        return false;
      }
      return true;
    }

    lemma GoneOrThere(a: Agent, sessionId: string, observed: nat, c: Context)
      requires sessionId in a.pending
      ensures sessionId !in Dropped(a, sessionId).pending
      ensures sessionId !in Rejected(a, sessionId, observed, c.reason).pending
      ensures sessionId in Unstamped(a, sessionId, c).pending
    {}

    /** The entries are the pending prompts, each under its session. */
    ghost predicate Lists(entries: seq<Entry>) reads this {
      && (forall k :: 0 <= k < |entries| ==>
            entries[k].0 in pendingPrompts && pendingPrompts[entries[k].0] == entries[k].1)
      && (forall s :: s in pendingPrompts ==> (s, pendingPrompts[s]) in entries)
    }

    method Entries() returns (entries: seq<Entry>)
      requires Valid()
      ensures Lists(entries)
    {
      hide OneEach;
      entries := [];
      var todo := pendingPrompts.Keys;
      while todo != {}
        invariant todo <= pendingPrompts.Keys
        invariant forall e :: e in entries ==> e.0 in pendingPrompts && pendingPrompts[e.0] == e.1
        invariant forall s :: s in pendingPrompts && s !in todo ==> (s, pendingPrompts[s]) in entries
        decreases |todo|
      {
        var s :| s in todo;
        entries := entries + [(s, pendingPrompts[s])];
        todo := todo - {s};
      }
    }

    /** What the entries show is the snapshot of the model, and they were issued here. */
    lemma ListsSnapshot(entries: seq<Entry>)
      requires Valid() && Lists(entries)
      ensures Snapshot(View(), Ids(entries))
      ensures forall e :: e in entries ==> e.1.sessionId == e.0 && e.1 in issued
    {
      hide OneEach;
      forall s | s in pendingPrompts ensures (s, pendingPrompts[s].idempotencyKey) in Ids(entries) {
        var k :| 0 <= k < |entries| && entries[k] == (s, pendingPrompts[s]);
        assert Ids(entries)[k] == (s, pendingPrompts[s].idempotencyKey);
      }
    }

    /** reconcilePendingPrompts up to its first await. */
    method BeginReconcile(observed: nat, deadlineExpired: bool)
      returns (next: Option<Reconciliation>, ghost entries: seq<(string, string)>)
      requires Valid()
      modifies this`disconnectTimer
      ensures Valid() && Snapshot(old(View()), entries)
      ensures var begun := Begun(old(View()), observed, deadlineExpired, entries);
              View() == begun.0 && Suspended(next, begun.1)
    {
      hide Advanced, Snapshot;
      var pendingEntries := Entries();
      ListsSnapshot(pendingEntries);
      entries := Ids(pendingEntries);
      NoPending();
      if |pendingPrompts| == 0 {
        if disconnectGeneration == observed {
          ClearDisconnectTimer();
        }
        return None, entries;
      }
      var first := Reconciliation(observed, deadlineExpired, pendingEntries, None, false);
      next := AdvanceReconcile(first, FirstTask(observed, deadlineExpired, entries));
    }

    /** From one await to the next: a reply is settled, or the loop goes on with its list. */
    method ResumeReconcile(
      now: int, r: Reconciliation, reply: Reply, ghost t: Task) returns (next: Option<Reconciliation>)
      requires Valid() && Captured(r) && r.Models(t)
      requires sessionStore.Valid()
      modifies this`pendingPrompts, this`disconnectTimer, this`rejected
      modifies if r.waiting.Some? then {r.waiting.value.0} else {}
      modifies sessionStore`runIdToSessionId, sessionStore.sessions.Values
      ensures sessionStore.Valid()
      ensures Valid()
      ensures var resumed := Resumed(old(View()), t, reply);
              View() == resumed.0 && Suspended(next, resumed.1)
    {
      hide Advanced, Settled;
      if r.waiting.None? {
        next := AdvanceReconcile(r, t);
      } else {
        var (pending, context) := r.waiting.value;
        var shouldKeepPending := SettleReply(now, pending, context, r.observed, r.deadlineExpired, reply);
        next := Some(r.(waiting := None, keepDisconnectTimer := r.keepDisconnectTimer || shouldKeepPending));
      }
    }

    /** The loop of reconcilePendingPrompts from one await to the next: skips entries that are gone or stamped
        otherwise; behind the last one it clears the timer unless that is to be kept or a newer disconnect owns it. */
    method AdvanceReconcile(r: Reconciliation, ghost t: Task) returns (next: Option<Reconciliation>)
      requires Valid() && Captured(r) && r.Models(t) && r.waiting.None?
      modifies this`disconnectTimer
      ensures Valid()
      ensures View() == Advanced(old(View()), t).0 && Suspended(next, Advanced(old(View()), t).1)
    {
      hide Eligible, Advanced, OneEach, Valid;
      ghost var a := View();
      ghost var u := t;
      var rest := r.pendingEntries;
      while rest != []
        invariant r.(pendingEntries := rest).Models(u)
        invariant Valid() && View() == a && Advanced(a, u) == Advanced(a, t)
        invariant forall e :: e in rest ==> e in r.pendingEntries
        decreases |rest|
      {
        var (sessionId, pending) := rest[0];
        EligibleEntry(sessionId, pending, r.observed);
        AdvancedCases(a, u);
        var eligible := && sessionId in pendingPrompts && pendingPrompts[sessionId] == pending
                        && pending.disconnectContext.Some?
                        && pending.disconnectContext.value.generation == r.observed;
        rest := rest[1..];
        if eligible {
          return Some(r.(pendingEntries := rest, waiting := Some((pending, pending.disconnectContext.value))));
        }
        u := u.(todo := u.todo[1..], visited := u.visited + {u.todo[0].1});
      }
      AdvancedCases(a, u);
      if !r.keepDisconnectTimer && disconnectGeneration == r.observed {
        ClearDisconnectTimer();
      }
      return None;
    }

    lemma EligibleEntry(sessionId: string, pending: PendingPrompt, observed: nat)
      requires Valid() && pending.sessionId == sessionId && pending in issued
      ensures Eligible(View(), (sessionId, pending.idempotencyKey), observed) <==>
                && sessionId in pendingPrompts && pendingPrompts[sessionId] == pending
                && pending.disconnectContext.Some? && pending.disconnectContext.value.generation == observed
      ensures Eligible(View(), (sessionId, pending.idempotencyKey), observed) ==>
                View().pending[sessionId].context == pending.disconnectContext
    {}
  }
}
