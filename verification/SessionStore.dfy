/** The in-memory session store of src/acp/session.ts. Readings of the clock and fresh run ids are parameters;
    an abort controller is represented by a number, and `aborted` is the set of controllers told to abort. */
module SessionStore {
  import opened Text
  import opened Collections

  datatype Config = Config(maxSessions: int, idleTtlMs: int) {
    function Max(): nat { if maxSessions < 1 then 1 else maxSessions }
    function Ttl(): int { if idleTtlMs < 1_000 then 1_000 else idleTtlMs }
  }

  datatype Session = Session(
    sessionKey: string, cwd: string, createdAt: int, lastTouchedAt: int,
    abortController: Option<nat>, activeRunId: Option<string>)
  {
    /** A run id counts when it is not the empty string. */
    predicate HasRun() { activeRunId.GetOr("") != "" }
    predicate Active() { HasRun() || abortController.Some? }
  }

  /** Sessions by id, the order of insertion, the run index, and the controllers told to abort. */
  datatype State = State(
    sessions: map<string, Session>, order: seq<string>, runs: map<string, string>, aborted: set<nat>)

  const EMPTY := State(map[], [], map[], {})

  function Keep(order: seq<string>, ids: set<string>): seq<string> {
    if order == [] then []
    else Keep(order[..|order| - 1], ids) + (if order[|order| - 1] in ids then [order[|order| - 1]] else [])
  }

  function Touch(st: State, id: string, now: int): State
    requires id in st.sessions
  {
    st.(sessions := st.sessions[id := st.sessions[id].(lastTouchedAt := now)])
  }

  function WithoutRun(runs: map<string, string>, s: Session): map<string, string> {
    if s.HasRun() then runs - {s.activeRunId.value} else runs
  }

  function Signalled(aborted: set<nat>, s: Session): set<nat> {
    if s.abortController.Some? then aborted + {s.abortController.value} else aborted
  }

  function Remove(st: State, id: string): State
    requires id in st.sessions
  {
    State(st.sessions - {id}, Keep(st.order, st.sessions.Keys - {id}),
          WithoutRun(st.runs, st.sessions[id]), Signalled(st.aborted, st.sessions[id]))
  }

  predicate Expired(c: Config, s: Session, now: int) {
    !s.Active() && s.lastTouchedAt <= now - c.Ttl()
  }

  /** Reaping takes away exactly the expired sessions and touches neither the index nor any controller. */
  function Reap(c: Config, st: State, now: int): State {
    var left := map id | id in st.sessions && !Expired(c, st.sessions[id], now) :: st.sessions[id];
    st.(sessions := left, order := Keep(st.order, left.Keys))
  }

  /** The idle session with the earliest last touch; the first of several. */
  function Oldest(sessions: map<string, Session>, order: seq<string>): Option<string> {
    if order == [] then None
    else
      var before, id := Oldest(sessions, order[..|order| - 1]), order[|order| - 1];
      if id !in sessions || sessions[id].Active() then before
      else if before.Some? && before.value in sessions
          && sessions[id].lastTouchedAt >= sessions[before.value].lastTouchedAt then before
      else Some(id)
  }

  /** None when the store is full and nothing can be evicted; an oldest session with an empty id counts as none. */
  function Admit(c: Config, st: State): Option<State> {
    if |st.sessions| < c.Max() then Some(st)
    else if Oldest(st.sessions, st.order).GetOr("") == "" then None
    else if Oldest(st.sessions, st.order).value !in st.sessions then None
    else Some(Remove(st, Oldest(st.sessions, st.order).value))
  }

  function Renewed(st: State, now: int, key: string, cwd: string, id: string): State
    requires id in st.sessions
  {
    st.(sessions := st.sessions[id := st.sessions[id].(sessionKey := key, cwd := cwd, lastTouchedAt := now)])
  }

  function Inserted(st: State, now: int, key: string, cwd: string, id: string): State {
    st.(sessions := st.sessions[id := Session(key, cwd, now, now, None, None)], order := st.order + [id])
  }

  /** The state after a create, and whether it succeeded. */
  function Create(c: Config, st: State, now: int, key: string, cwd: string, id: string): (State, bool) {
    if id in st.sessions then (Renewed(st, now, key, cwd, id), true)
    else
      match Admit(c, Reap(c, st, now))
      case None => (Reap(c, st, now), false)
      case Some(room) => (Inserted(room, now, key, cwd, id), true)
  }

  function Get(st: State, now: int, id: string): State {
    if id in st.sessions then Touch(st, id, now) else st
  }

  function WithActiveRun(st: State, now: int, id: string, runId: string, controller: nat): State {
    if id !in st.sessions then st
    else
      var s := st.sessions[id].(activeRunId := Some(runId), abortController := Some(controller), lastTouchedAt := now);
      st.(sessions := st.sessions[id := s], runs := st.runs[runId := id])
  }

  function Cleared(st: State, now: int, id: string): State {
    if id !in st.sessions then st
    else
      var s := st.sessions[id];
      st.(sessions := st.sessions[id := s.(activeRunId := None, abortController := None, lastTouchedAt := now)],
          runs := WithoutRun(st.runs, s))
  }

  function Cancelled(st: State, now: int, id: string): State {
    if id !in st.sessions || st.sessions[id].abortController.None? then st
    else Cleared(st, now, id).(aborted := Signalled(st.aborted, st.sessions[id]))
  }

  // ---------------------------------------------------------------- the store

  class AcpSession {
    const sessionId: string
    var sessionKey: string
    var cwd: string
    const createdAt: int
    var lastTouchedAt: int
    var abortController: Option<nat>
    var activeRunId: Option<string>

    constructor (sessionId: string, sessionKey: string, cwd: string, now: int)
      ensures this.sessionId == sessionId && View() == Session(sessionKey, cwd, now, now, None, None)
    {
      this.sessionId, this.sessionKey, this.cwd := sessionId, sessionKey, cwd;
      createdAt, lastTouchedAt, abortController, activeRunId := now, now, None, None;
    }

    function View(): Session reads this {
      Session(sessionKey, cwd, createdAt, lastTouchedAt, abortController, activeRunId)
    }
  }

  class AcpSessionStore {
    const config: Config
    var sessions: map<string, AcpSession>
    var order: seq<string>
    var runIdToSessionId: map<string, string>
    var aborted: set<nat>

    /** Every record sits under its own id, so no two entries share a record; the order lists the entries. */
    ghost predicate Valid() reads this, sessions.Values {
      && (forall id :: id in sessions ==> sessions[id].sessionId == id)
      && (forall id :: id in order <==> id in sessions)
      && Distinct(order)
    }

    ghost function View(): State reads this, sessions.Values {
      State(map id | id in sessions :: sessions[id].View(), order, runIdToSessionId, aborted)
    }

    constructor (config: Config)
      ensures Valid() && View() == EMPTY && this.config == config
    {
      this.config := config;
      sessions, order, runIdToSessionId, aborted := map[], [], map[], {};
    }

    method TouchSession(session: AcpSession, now: int)
      modifies session`lastTouchedAt
      ensures session.lastTouchedAt == now
    {
      session.lastTouchedAt := now;
    }

    lemma Keys()
      ensures View().sessions.Keys == sessions.Keys
    {}

    /** Takes the session's run out of the index, as three of the operations do. */
    method DropRun(session: AcpSession)
      modifies this`runIdToSessionId
      ensures runIdToSessionId == WithoutRun(old(runIdToSessionId), session.View())
    {
      if session.activeRunId.GetOr("") != "" {
        runIdToSessionId := runIdToSessionId - {session.activeRunId.value};
      }
    }

    /** `session.abortController?.abort()` */
    method Abort(session: AcpSession)
      modifies this`aborted
      ensures aborted == Signalled(old(aborted), session.View())
    {
      if session.abortController.Some? {
        aborted := aborted + {session.abortController.value};
      }
    }

    method RemoveSession(id: string) returns (removed: bool)
      requires Valid()
      modifies this
      ensures Valid() && removed == (id in old(sessions))
      ensures sessions == old(sessions) - {id} && order == Keep(old(order), sessions.Keys)
      ensures View() == if id in old(sessions) then Remove(old(View()), id) else old(View())
    {
      hide Keep, Distinct, WithoutRun, Signalled;
      Keys();
      if id !in sessions {
        KeepAll(order, sessions.Keys);
        assert sessions - {id} == sessions;
        return false;
      }
      var session := sessions[id];
      ghost var st := View();
      DropRun(session);
      Abort(session);
      KeepMembers(order, sessions.Keys - {id});
      order := Keep(order, sessions.Keys - {id});
      sessions := sessions - {id};
      assert View().sessions == st.sessions - {id};
      assert runIdToSessionId == WithoutRun(st.runs, st.sessions[id])
          && aborted == Signalled(st.aborted, st.sessions[id]);
      return true;
    }

    method ReapIdleSessions(now: int)
      requires Valid()
      modifies this
      ensures Valid() && View() == Reap(config, old(View()), now)
      ensures sessions.Values <= old(sessions.Values) && sessions.Keys <= old(sessions.Keys)
    {
      hide Keep, Distinct, Remove, Oldest;
      ghost var st := View();
      Keys();
      var entries := order;
      KeepAll(order, sessions.Keys);
      for k := 0 to |entries|
        invariant Valid() && order == Keep(entries, sessions.Keys)
        invariant forall id :: id in sessions <==>
            id in st.sessions && !(id in entries[..k] && Expired(config, st.sessions[id], now))
        invariant forall id :: id in sessions ==> sessions[id] == old(sessions)[id]
        invariant runIdToSessionId == st.runs && aborted == st.aborted
      {
        var id := entries[k];
        assert forall other :: other in entries[..k + 1] <==> other in entries[..k] || other == id;
        if id in sessions {
          var session := sessions[id];
          assert st.sessions[id] == session.View() == View().sessions[id];
          if !(session.activeRunId.GetOr("") != "" || session.abortController.Some?)
             && session.lastTouchedAt <= now - config.Ttl() {
            RemoveIdle(View(), id);
            KeepKeep(entries, sessions.Keys, sessions.Keys - {id});
            assert (sessions - {id}).Keys == sessions.Keys - {id};
            var _ := RemoveSession(id);
          }
        }
      }
      Keys();
      ghost var left := Reap(config, st, now).sessions;
      assert entries[..|entries|] == entries;
      assert sessions.Keys == left.Keys;
      assert View().sessions == left;
    }

    method EvictOldestIdleSession() returns (evicted: bool)
      requires Valid()
      modifies this
      ensures Valid() && sessions.Values <= old(sessions.Values) && sessions.Keys <= old(sessions.Keys)
      ensures var oldest := Oldest(old(View()).sessions, old(order)).GetOr("");
              && evicted == (oldest != "")
              && View()
              == if evicted && oldest in old(View()).sessions then Remove(old(View()), oldest) else old(View())
      ensures evicted ==> Oldest(old(View()).sessions, old(order)).value in old(sessions)
    {
      ghost var st := View();
      var oldestSessionId := None;
      for k := 0 to |order|
        invariant oldestSessionId == Oldest(st.sessions, order[..k])
        invariant oldestSessionId.Some? ==> oldestSessionId.value in sessions
      {
        var id := order[k];
        assert order[..k + 1][..k] == order[..k];
        var session := sessions[id];
        if !(session.activeRunId.GetOr("") != "" || session.abortController.Some?)
           && (oldestSessionId.None? || session.lastTouchedAt < sessions[oldestSessionId.value].lastTouchedAt) {
          oldestSessionId := Some(id);
        }
      }
      assert order[..|order|] == order;
      if oldestSessionId.GetOr("") == "" {
        return false;
      }
      evicted := RemoveSession(oldestSessionId.value);
    }

    /** null stands for the error that the limit is reached. */
    method CreateSession(now: int, sessionKey: string, cwd: string, sessionId: string) returns (session: AcpSession?)
      requires Valid()
      modifies this, sessions.Values
      ensures Valid()
      ensures (View(), session != null) == Create(config, old(View()), now, sessionKey, cwd, sessionId)
      ensures session != null ==> sessionId in sessions && sessions[sessionId] == session
    {
      hide Keep, Distinct, Remove, Oldest, Reap, Admit;
      Keys();
      if sessionId in sessions {
        session := Renew(now, sessionKey, cwd, sessionId);
        return session;
      }
      CreateCases(config, View(), now, sessionKey, cwd, sessionId);
      ReapIdleSessions(now);
      Keys();
      if |sessions| >= config.Max() {
        var evicted := EvictOldestIdleSession();
        if !evicted {
          return null;
        }
      }
      session := Insert(now, sessionKey, cwd, sessionId);
    }

    /** createSession for an id that is there. */
    method Renew(now: int, sessionKey: string, cwd: string, sessionId: string) returns (session: AcpSession)
      requires Valid() && sessionId in sessions
      modifies sessions.Values
      ensures Valid() && session == sessions[sessionId]
      ensures View() == Renewed(old(View()), now, sessionKey, cwd, sessionId)
    {
      hide Keep, Distinct;
      ghost var st := View();
      session := sessions[sessionId];
      session.sessionKey := sessionKey;
      session.cwd := cwd;
      TouchSession(session, now);
      assert View().sessions == st.sessions[sessionId := session.View()];
    }

    /** createSession once there is room. */
    method Insert(now: int, sessionKey: string, cwd: string, sessionId: string) returns (session: AcpSession)
      requires Valid() && sessionId !in sessions
      modifies this`sessions, this`order
      ensures Valid() && sessionId in sessions && session == sessions[sessionId] && fresh(session)
      ensures View() == Inserted(old(View()), now, sessionKey, cwd, sessionId)
    {
      hide Keep, Distinct;
      ghost var st := View();
      DistinctPush(order, sessionId);
      session := new AcpSession(sessionId, sessionKey, cwd, now);
      sessions := sessions[sessionId := session];
      order := order + [sessionId];
      assert View().sessions == st.sessions[sessionId := session.View()];
    }

    method GetSession(now: int, sessionId: string) returns (session: AcpSession?)
      requires Valid()
      modifies sessions.Values
      ensures Valid() && View() == Get(old(View()), now, sessionId)
      ensures if sessionId in sessions then session == sessions[sessionId] else session == null
    {
      hide Keep, Distinct;
      if sessionId !in sessions {
        return null;
      }
      session := sessions[sessionId];
      TouchSession(session, now);
    }

    method GetSessionByRunId(now: int, runId: string) returns (session: AcpSession?)
      requires Valid()
      modifies sessions.Values
      ensures Valid()
      ensures var id := if runId in runIdToSessionId then runIdToSessionId[runId] else "";
              if id != "" && id in sessions
              then session == sessions[id] && View() == Get(old(View()), now, id)
              else session == null && View() == old(View())
    {
      if runId !in runIdToSessionId || runIdToSessionId[runId] == "" {
        return null;
      }
      session := GetSession(now, runIdToSessionId[runId]);
    }

    method SetActiveRun(now: int, sessionId: string, runId: string, abortController: nat)
      requires Valid()
      modifies this`runIdToSessionId, sessions.Values
      ensures Valid()
      ensures View() == WithActiveRun(old(View()), now, sessionId, runId, abortController)
    {
      hide Keep, Distinct;
      ghost var st := View();
      if sessionId !in sessions {
        return;
      }
      var session := sessions[sessionId];
      session.activeRunId := Some(runId);
      session.abortController := Some(abortController);
      runIdToSessionId := runIdToSessionId[runId := sessionId];
      TouchSession(session, now);
      assert View().sessions == st.sessions[sessionId := session.View()];
    }

    /** The part that clearing and cancelling share: the session has no run and no controller, nor the index its run. */
    method EndRun(now: int, session: AcpSession)
      requires Valid() && session in sessions.Values
      modifies this`runIdToSessionId, session
      ensures Valid()
      ensures View() == Cleared(old(View()), now, session.sessionId)
    {
      hide Keep, Distinct, WithoutRun;
      ghost var st := View();
      DropRun(session);
      session.activeRunId := None;
      session.abortController := None;
      TouchSession(session, now);
      assert View().sessions == st.sessions[session.sessionId := session.View()];
    }

    method ClearActiveRun(now: int, sessionId: string)
      requires Valid()
      modifies this`runIdToSessionId, sessions.Values
      ensures Valid()
      ensures View() == Cleared(old(View()), now, sessionId)
    {
      hide Keep, Distinct, WithoutRun;
      if sessionId !in sessions {
        return;
      }
      EndRun(now, sessions[sessionId]);
    }

    method CancelActiveRun(now: int, sessionId: string) returns (cancelled: bool)
      requires Valid()
      modifies this`runIdToSessionId, this`aborted, sessions.Values
      ensures Valid()
      ensures View() == Cancelled(old(View()), now, sessionId)
      ensures cancelled == (sessionId in sessions && old(View()).sessions[sessionId].abortController.Some?)
    {
      hide Keep, Distinct, WithoutRun, Signalled;
      if sessionId !in sessions || sessions[sessionId].abortController.None? {
        return false;
      }
      Abort(sessions[sessionId]);
      EndRun(now, sessions[sessionId]);
      return true;
    }
  }

  lemma CreateCases(c: Config, st: State, now: int, key: string, cwd: string, id: string)
    requires id !in st.sessions
    ensures var reaped := Reap(c, st, now);
            var oldest := Oldest(reaped.sessions, reaped.order).GetOr("");
            var full, stuck := |reaped.sessions| >= c.Max(), oldest == "" || oldest !in reaped.sessions;
            Create(c, st, now, key, cwd, id)
            == if full && stuck then (reaped, false)
               else (Inserted(if full then Remove(reaped, oldest) else reaped, now, key, cwd, id), true)
  {
    hide Reap, Remove, Oldest;
  }

  lemma RemoveIdle(st: State, id: string)
    requires id in st.sessions && !st.sessions[id].Active()
    ensures Remove(st, id) == st.(sessions := st.sessions - {id}, order := Keep(st.order, st.sessions.Keys - {id}))
  {}

  lemma {:induction false} KeepAll(order: seq<string>, ids: set<string>)
    requires forall id :: id in order ==> id in ids
    ensures Keep(order, ids) == order
  {
    if order != [] {
      KeepAll(order[..|order| - 1], ids);
    }
  }

  lemma {:induction false} KeepKeep(order: seq<string>, ids: set<string>, fewer: set<string>)
    requires fewer <= ids
    ensures Keep(Keep(order, ids), fewer) == Keep(order, fewer)
  {
    if order != [] {
      var init, last := order[..|order| - 1], order[|order| - 1];
      KeepKeep(init, ids, fewer);
      if last in ids {
        var kept := Keep(init, ids) + [last];
        assert kept[..|kept| - 1] == Keep(init, ids);
      } else {
        assert Keep(order, ids) == Keep(init, ids);
      }
    }
  }

  lemma DistinctPush(order: seq<string>, id: string)
    requires Distinct(order) && id !in order
    ensures Distinct(order + [id])
  {}

  lemma {:induction false} KeepMembers(order: seq<string>, ids: set<string>)
    ensures forall id :: id in Keep(order, ids) <==> id in order && id in ids
    ensures Distinct(order) ==> Distinct(Keep(order, ids))
  {
    if order != [] {
      var init, last := order[..|order| - 1], order[|order| - 1];
      KeepMembers(init, ids);
      assert forall id :: id in order <==> id in init || id == last;
      assert Distinct(order) ==> last !in init;
    }
  }

  // ---------------------------------------------------------------- eviction

  /** The j-th entry of the order is an idle session touched no later than any other idle one, and earlier than
      every idle one before it. */
  predicate LeastRecent(sessions: map<string, Session>, order: seq<string>, j: nat) {
    && j < |order| && order[j] in sessions && !sessions[order[j]].Active()
    && forall i :: 0 <= i < |order| && order[i] in sessions && !sessions[order[i]].Active() ==>
         && sessions[order[j]].lastTouchedAt <= sessions[order[i]].lastTouchedAt
         && (i < j ==> sessions[order[j]].lastTouchedAt < sessions[order[i]].lastTouchedAt)
  }

  lemma {:induction false} OldestIsLeastRecent(sessions: map<string, Session>, order: seq<string>)
    ensures var o := Oldest(sessions, order);
            && (o.Some? ==> exists j: nat :: LeastRecent(sessions, order, j) && order[j] == o.value)
            && (o.None? ==> forall id :: id in order && id in sessions ==> sessions[id].Active())
  {
    if order != [] {
      var n := |order| - 1;
      var init := order[..n];
      OldestIsLeastRecent(sessions, init);
      var o := Oldest(sessions, order);
      if o.Some? {
        if o == Oldest(sessions, init) {
          var j: nat :| LeastRecent(sessions, init, j) && init[j] == o.value;
          assert LeastRecent(sessions, order, j);
        } else {
          assert LeastRecent(sessions, order, n);
        }
      }
    }
  }

  /** The order lists the sessions. */
  ghost predicate Listed(st: State) {
    forall id :: id in st.order <==> id in st.sessions
  }

  /** The order lists the sessions, and every session's run is in the index and nothing else is. */
  ghost predicate Indexed(st: State) {
    && Listed(st)
    && (forall r :: r in st.runs ==> st.runs[r] in st.sessions && st.sessions[st.runs[r]].activeRunId == Some(r))
    && (forall id :: id in st.sessions && st.sessions[id].activeRunId.Some? ==>
          var r := st.sessions[id].activeRunId.value; r != "" && r in st.runs && st.runs[r] == id)
    && (forall id :: id in st.sessions ==>
         (st.sessions[id].activeRunId.Some? <==> st.sessions[id].abortController.Some?))
  }

  lemma EvictedIsIdle(st: State, v: string)
    requires Oldest(st.sessions, st.order) == Some(v)
    ensures v in st.sessions && !st.sessions[v].Active()
  {
    OldestIsLeastRecent(st.sessions, st.order);
  }

  /** A create never ends a run: sessions with a run stay as they are, the index and the controllers too. */
  lemma CreateKeepsActive(c: Config, st: State, now: int, key: string, cwd: string, id: string)
    ensures var next := Create(c, st, now, key, cwd, id).0;
            && next.runs == st.runs && next.aborted == st.aborted
            && forall k :: k in st.sessions && st.sessions[k].Active() && k != id ==>
                 k in next.sessions && next.sessions[k] == st.sessions[k]
  {
    hide Keep, Oldest;
    if id !in st.sessions {
      var reaped := Reap(c, st, now);
      if Oldest(reaped.sessions, reaped.order).Some? {
        EvictedIsIdle(reaped, Oldest(reaped.sessions, reaped.order).value);
      }
    }
  }

  /** What a create takes away was expired, or it is the least recently touched idle session of a full store. */
  lemma CreateRemovesOnly(c: Config, st: State, now: int, key: string, cwd: string, id: string, gone: string)
    requires gone in st.sessions && gone !in Create(c, st, now, key, cwd, id).0.sessions
    ensures var reaped := Reap(c, st, now);
            || Expired(c, st.sessions[gone], now)
            || (&& |reaped.sessions| >= c.Max()
                && exists j: nat :: LeastRecent(reaped.sessions, reaped.order, j) && reaped.order[j] == gone)
  {
    hide Keep, Oldest;
    var reaped := Reap(c, st, now);
    OldestIsLeastRecent(reaped.sessions, reaped.order);
  }

  lemma ReapKeepsListed(c: Config, st: State, now: int)
    requires Listed(st)
    ensures Listed(Reap(c, st, now)) && Reap(c, st, now).sessions.Keys <= st.sessions.Keys
  {
    hide Keep;
    KeepMembers(st.order, Reap(c, st, now).sessions.Keys);
  }

  lemma ReapKeepsIndexed(c: Config, st: State, now: int)
    requires Indexed(st)
    ensures Indexed(Reap(c, st, now)) && Reap(c, st, now).sessions.Keys <= st.sessions.Keys
  {
    hide Keep;
    var reaped := Reap(c, st, now);
    KeepMembers(st.order, reaped.sessions.Keys);
  }

  /** A create fails exactly when the id is new, the store is full after reaping, and either every session left
      has a run or the one to evict has the empty id, which the source takes for none. */
  lemma CreateFailsIff(c: Config, st: State, now: int, key: string, cwd: string, id: string)
    requires Listed(st)
    ensures var reaped := Reap(c, st, now);
            !Create(c, st, now, key, cwd, id).1 <==>
              && id !in st.sessions
              && |reaped.sessions| >= c.Max()
              && ((forall k :: k in reaped.sessions ==> reaped.sessions[k].Active())
                  || Oldest(reaped.sessions, reaped.order) == Some(""))
  {
    hide Keep, Oldest, Reap;
    var reaped := Reap(c, st, now);
    ReapKeepsListed(c, st, now);
    OldestIsLeastRecent(reaped.sessions, reaped.order);
  }

  /** Without an empty id a create fails exactly when the store is full of sessions with a run. */
  lemma CreateFailsOnlyWhenBusy(c: Config, st: State, now: int, key: string, cwd: string, id: string)
    requires Listed(st) && "" !in st.sessions
    ensures !Create(c, st, now, key, cwd, id).1 <==>
              && id !in st.sessions
              && |Reap(c, st, now).sessions| >= c.Max()
              && forall k :: k in Reap(c, st, now).sessions ==> Reap(c, st, now).sessions[k].Active()
  {
    hide Keep, Oldest, Reap, Create, Listed;
    CreateFailsIff(c, st, now, key, cwd, id);
    ReapKeepsListed(c, st, now);
    var reaped := Reap(c, st, now);
    if Oldest(reaped.sessions, reaped.order).Some? {
      EvictedIsIdle(reaped, Oldest(reaped.sessions, reaped.order).value);
    }
  }

  /** With the empty id it can fail although an idle session could make room. */
  lemma EmptyIdBlocksEviction(now: int)
    ensures var c := Config(1, 0);
            var st := Create(c, EMPTY, now, "k", "/", "");
            && st.1
            && "" in st.0.sessions && !st.0.sessions[""].Active()
            && !Create(c, st.0, now, "k", "/", "a").1
  {
    var c := Config(1, 0);
    var st := Create(c, EMPTY, now, "k", "/", "").0;
    assert st.sessions == map["" := Session("k", "/", now, now, None, None)];
    assert [""][..0] == [];
    assert Oldest(st.sessions, [""]) == Some("");
    var left := Reap(c, st, now);
    assert left.sessions == st.sessions;
    assert st.order == [""] && "" in left.sessions.Keys;
    assert Keep([""], left.sessions.Keys) == Keep([""][..0], left.sessions.Keys) + [""];
    assert left.order == [""];
  }

  // ---------------------------------------------------------------- runs

  /** Adding a run keeps the index exact if and only if the run id is not empty, the session has no other run and
      no other session has this run id. */
  lemma SetActiveRunKeepsIndexedIff(st: State, now: int, id: string, runId: string, controller: nat)
    requires Indexed(st) && id in st.sessions
    ensures Indexed(WithActiveRun(st, now, id, runId, controller)) <==>
              && runId != ""
              && (st.sessions[id].activeRunId == None || st.sessions[id].activeRunId == Some(runId))
              && (runId !in st.runs || st.runs[runId] == id)
  {
    var next := WithActiveRun(st, now, id, runId, controller);
    assert next.sessions[id].activeRunId == Some(runId);
    var before := st.sessions[id].activeRunId;
    assert before.Some? && before != Some(runId) ==> before.value in next.runs && next.runs[before.value] == id;
    assert runId in st.runs && st.runs[runId] != id ==> next.sessions[st.runs[runId]].activeRunId == Some(runId);
  }

  datatype Event =
    | CreateEvent(now: int, key: string, cwd: string, id: string)
    | GetEvent(now: int, id: string)
    | GetByRunEvent(now: int, runId: string)
    | PromptEvent(now: int, id: string, runId: string, controller: nat)
    | RefusedPromptEvent(now: int, id: string)
    | ClearEvent(now: int, id: string)
    | CancelEvent(now: int, id: string)

  /** How prompt uses the store: look the session up and cancel the run that is there. */
  function Readied(st: State, now: int, id: string): State {
    Cancelled(Get(st, now, id), now, id)
  }

  function Step(c: Config, st: State, e: Event): State {
    match e
    case CreateEvent(now, key, cwd, id) => Create(c, st, now, key, cwd, id).0
    case GetEvent(now, id) => Get(st, now, id)
    case GetByRunEvent(now, runId) =>
      if runId in st.runs && st.runs[runId] != "" then Get(st, now, st.runs[runId]) else st
    case PromptEvent(now, id, runId, controller) => WithActiveRun(Readied(st, now, id), now, id, runId, controller)
    case RefusedPromptEvent(now, id) => Readied(st, now, id)
    case ClearEvent(now, id) => Cleared(st, now, id)
    case CancelEvent(now, id) => Cancelled(st, now, id)
  }

  /** Every prompt comes with a run id that is not empty and not in the index. */
  predicate FreshRunIds(c: Config, events: seq<Event>) {
    if events == [] then true
    else
      var init, e := events[..|events| - 1], events[|events| - 1];
      FreshRunIds(c, init) && (e.PromptEvent? ==> e.runId != "" && e.runId !in Run(c, init).runs)
  }

  function Run(c: Config, events: seq<Event>): State {
    if events == [] then EMPTY else Step(c, Run(c, events[..|events| - 1]), events[|events| - 1])
  }

  // ---------------------------------------------------------------- capacity

  lemma CreateKeepsCapacity(c: Config, st: State, now: int, key: string, cwd: string, id: string)
    requires |st.sessions| <= c.Max()
    ensures |Create(c, st, now, key, cwd, id).0.sessions| <= c.Max()
  {
    hide Oldest, Reap, Remove, Inserted;
    if id in st.sessions {
      assert Renewed(st, now, key, cwd, id).sessions.Keys == st.sessions.Keys;
    } else {
      var reaped := Reap(c, st, now);
      ReapShrinks(c, st, now);
      if Admit(c, reaped).Some? {
        if |reaped.sessions| >= c.Max() {
          RemoveShrinks(reaped, Oldest(reaped.sessions, reaped.order).value);
        }
        InsertGrows(Admit(c, reaped).value, now, key, cwd, id);
      }
    }
  }

  lemma ReapShrinks(c: Config, st: State, now: int)
    ensures |Reap(c, st, now).sessions| <= |st.sessions|
  {
    hide Keep;
    Fewer(Reap(c, st, now).sessions.Keys, st.sessions.Keys);
  }

  lemma RemoveShrinks(st: State, id: string)
    requires id in st.sessions
    ensures |Remove(st, id).sessions| == |st.sessions| - 1
  {
    assert (st.sessions - {id}).Keys == st.sessions.Keys - {id};
  }

  lemma InsertGrows(st: State, now: int, key: string, cwd: string, id: string)
    ensures |Inserted(st, now, key, cwd, id).sessions| <= |st.sessions| + 1
  {
    assert Inserted(st, now, key, cwd, id).sessions.Keys == st.sessions.Keys + {id};
  }

  lemma OtherStepsKeepIds(c: Config, st: State, e: Event)
    requires !e.CreateEvent?
    ensures Step(c, st, e).sessions.Keys == st.sessions.Keys
  {
    hide Create, WithoutRun, Signalled;
  }

  /** The store never holds more than maxSessions sessions, however it is used. */
  lemma {:induction false} CapacityIsKept(c: Config, events: seq<Event>)
    ensures |Run(c, events).sessions| <= c.Max()
  {
    if events != [] {
      hide Step, Create;
      var init, e := events[..|events| - 1], events[|events| - 1];
      CapacityIsKept(c, init);
      if e.CreateEvent? {
        CreateKeepsCapacity(c, Run(c, init), e.now, e.key, e.cwd, e.id);
        StepIsCreate(c, Run(c, init), e);
      } else {
        OtherStepsKeepIds(c, Run(c, init), e);
      }
    }
  }

  lemma StepIsCreate(c: Config, st: State, e: Event)
    requires e.CreateEvent?
    ensures Step(c, st, e) == Create(c, st, e.now, e.key, e.cwd, e.id).0
  {}

  // ---------------------------------------------------------------- the order

  lemma CreateKeepsListed(c: Config, st: State, now: int, key: string, cwd: string, id: string)
    requires Listed(st)
    ensures Listed(Create(c, st, now, key, cwd, id).0)
  {
    hide Keep, Oldest, Reap;
    if id !in st.sessions {
      var reaped := Reap(c, st, now);
      ReapKeepsListed(c, st, now);
      if Admit(c, reaped).Some? {
        var room := Admit(c, reaped).value;
        if |reaped.sessions| >= c.Max() {
          KeepMembers(reaped.order, reaped.sessions.Keys - {Oldest(reaped.sessions, reaped.order).value});
        }
        assert Listed(room);
        assert forall k :: k in room.order + [id] <==> k in room.order || k == id;
      }
    }
  }

  lemma OtherStepsKeepOrder(c: Config, st: State, e: Event)
    requires !e.CreateEvent?
    ensures Step(c, st, e).order == st.order
  {
    hide Create, WithoutRun, Signalled;
  }

  /** The order lists the sessions in every run, whatever the run ids. */
  lemma {:induction false} OrderIsListed(c: Config, events: seq<Event>)
    ensures Listed(Run(c, events))
  {
    if events != [] {
      hide Step, Create;
      var init, e := events[..|events| - 1], events[|events| - 1];
      var st := Run(c, init);
      OrderIsListed(c, init);
      if e.CreateEvent? {
        CreateKeepsListed(c, st, e.now, e.key, e.cwd, e.id);
        StepIsCreate(c, st, e);
      } else {
        OtherStepsKeepIds(c, st, e);
        OtherStepsKeepOrder(c, st, e);
        assert forall id :: id in st.sessions <==> id in Step(c, st, e).sessions;
      }
    }
  }

  // ---------------------------------------------------------------- the run index

  lemma ClearKeepsIndexed(st: State, now: int, id: string)
    requires Indexed(st)
    ensures Indexed(Cleared(st, now, id)) && Indexed(Cancelled(st, now, id))
    ensures Cancelled(st, now, id).runs.Keys <= st.runs.Keys
    ensures id in st.sessions ==> Cancelled(st, now, id).sessions[id].activeRunId == None
    ensures Cleared(st, now, id).sessions.Keys == Cancelled(st, now, id).sessions.Keys == st.sessions.Keys
  {}

  lemma GetKeepsIndexed(st: State, now: int, id: string)
    requires Indexed(st)
    ensures Indexed(Get(st, now, id)) && Get(st, now, id).runs == st.runs
        && Get(st, now, id).sessions.Keys == st.sessions.Keys
  {}

  lemma PromptKeepsIndexed(st: State, now: int, id: string, runId: string, controller: nat)
    requires Indexed(st) && runId != "" && runId !in st.runs
    ensures var next := WithActiveRun(Readied(st, now, id), now, id, runId, controller);
            Indexed(next) && next.sessions.Keys == st.sessions.Keys
  {
    hide Indexed;
    GetKeepsIndexed(st, now, id);
    ClearKeepsIndexed(Get(st, now, id), now, id);
    if id in st.sessions {
      SetActiveRunKeepsIndexedIff(Readied(st, now, id), now, id, runId, controller);
    }
  }

  lemma RemoveIdleKeepsIndexed(st: State, id: string)
    requires Indexed(st) && id in st.sessions && !st.sessions[id].Active()
    ensures Indexed(Remove(st, id))
  {
    hide Keep;
    KeepMembers(st.order, st.sessions.Keys - {id});
    assert (st.sessions - {id}).Keys == st.sessions.Keys - {id};
  }

  lemma InsertKeepsIndexed(st: State, now: int, key: string, cwd: string, id: string)
    requires Indexed(st) && id !in st.sessions
    ensures Indexed(Inserted(st, now, key, cwd, id))
  {
    var next := Inserted(st, now, key, cwd, id);
    assert forall k :: k in next.order <==> k in st.order || k == id;
    assert forall k :: k in st.sessions ==> next.sessions[k] == st.sessions[k];
  }

  lemma CreateKeepsIndexed(c: Config, st: State, now: int, key: string, cwd: string, id: string)
    requires Indexed(st)
    ensures Indexed(Create(c, st, now, key, cwd, id).0)
  {
    hide Keep, Oldest, Reap, Remove, Inserted, Indexed;
    if id in st.sessions {
      RenewKeepsIndexed(st, now, key, cwd, id);
    } else {
      var reaped := Reap(c, st, now);
      ReapKeepsIndexed(c, st, now);
      if Admit(c, reaped).Some? {
        var room := Admit(c, reaped).value;
        if |reaped.sessions| >= c.Max() {
          var v := Oldest(reaped.sessions, reaped.order).value;
          EvictedIsIdle(reaped, v);
          RemoveIdleKeepsIndexed(reaped, v);
          assert id !in Remove(reaped, v).sessions by { RemoveIdle(reaped, v); }
        }
        InsertKeepsIndexed(room, now, key, cwd, id);
      }
    }
  }

  lemma RenewKeepsIndexed(st: State, now: int, key: string, cwd: string, id: string)
    requires Indexed(st) && id in st.sessions
    ensures var next := Renewed(st, now, key, cwd, id); Indexed(next) && next.sessions.Keys == st.sessions.Keys
  {}

  /** In every reachable state the run index is exactly the inverse of the sessions' active runs, a session has a
      run exactly when it has an abort controller, and the capacity is kept. */
  lemma {:induction false} ReachableIsIndexed(c: Config, events: seq<Event>)
    requires FreshRunIds(c, events)
    ensures Indexed(Run(c, events)) && |Run(c, events).sessions| <= c.Max()
  {
    CapacityIsKept(c, events);
    if events != [] {
      hide Indexed, Create, Get, WithActiveRun, Readied, Cleared, Cancelled;
      var init, e := events[..|events| - 1], events[|events| - 1];
      var st := Run(c, init);
      ReachableIsIndexed(c, init);
      match e
      case CreateEvent(now, key, cwd, id) => CreateKeepsIndexed(c, st, now, key, cwd, id);
      case GetEvent(now, id) => GetKeepsIndexed(st, now, id);
      case GetByRunEvent(now, runId) =>
        if runId in st.runs {
          GetKeepsIndexed(st, now, st.runs[runId]);
        }
      case PromptEvent(now, id, runId, controller) => PromptKeepsIndexed(st, now, id, runId, controller);
      case RefusedPromptEvent(now, id) => ReadyKeepsIndexed(st, now, id);
      case ClearEvent(now, id) => ClearKeepsIndexed(st, now, id);
      case CancelEvent(now, id) => ClearKeepsIndexed(st, now, id);
    }
  }

  lemma ReadyKeepsIndexed(st: State, now: int, id: string)
    requires Indexed(st)
    ensures Indexed(Readied(st, now, id)) && Readied(st, now, id).sessions.Keys == st.sessions.Keys
  {
    hide Indexed;
    GetKeepsIndexed(st, now, id);
    ClearKeepsIndexed(Get(st, now, id), now, id);
  }

  // ---------------------------------------------------------------- what the events leave of a session

  /** The event uses the session: by its id, or by its run. */
  predicate Uses(st: State, e: Event, id: string)
    requires id in st.sessions
  {
    match e
    case CreateEvent(_, _, _, i) => i == id
    case GetEvent(_, i) => i == id
    case GetByRunEvent(_, runId) => id != "" && runId in st.runs && st.runs[runId] == id
    case PromptEvent(_, i, _, _) => i == id
    case RefusedPromptEvent(_, i) => i == id
    case ClearEvent(_, i) => i == id
    case CancelEvent(_, i) => i == id && st.sessions[id].abortController.Some?
  }

  /** The event takes the session's run: a clear always does, a cancel or a refused prompt where there is a
      controller. */
  predicate EndsRun(st: State, e: Event, id: string)
    requires id in st.sessions
  {
    || (e.ClearEvent? && e.id == id)
    || ((e.CancelEvent? || e.RefusedPromptEvent?) && e.id == id && st.sessions[id].abortController.Some?)
  }

  /** What an event leaves of a session that was there and still is: touched exactly when used, with the run and the
      controller of the last prompt unless they were taken, with its birth and, but for a renewal, its key. */
  lemma SessionAfter(c: Config, st: State, e: Event, id: string)
    requires id in st.sessions && id in Step(c, st, e).sessions
    ensures var s, t := st.sessions[id], Step(c, st, e).sessions[id];
            && t.lastTouchedAt == (if Uses(st, e, id) then e.now else s.lastTouchedAt)
            && t.createdAt == s.createdAt
            && (t.sessionKey, t.cwd) == (if e.CreateEvent? && e.id == id then (e.key, e.cwd) else (s.sessionKey, s.cwd))
            && (t.activeRunId, t.abortController)
               == if e.PromptEvent? && e.id == id then (Some(e.runId), Some(e.controller))
                  else if EndsRun(st, e, id) then (None, None) else (s.activeRunId, s.abortController)
  {
    hide Keep, Oldest, WithoutRun, Signalled;
  }

  /** Only a create brings a session, fresh and idle. */
  lemma SessionBorn(c: Config, st: State, e: Event, id: string)
    requires id !in st.sessions && id in Step(c, st, e).sessions
    ensures e.CreateEvent? && e.id == id
    ensures Step(c, st, e).sessions[id] == Session(e.key, e.cwd, e.now, e.now, None, None)
  {
    hide Keep, Oldest, WithoutRun, Signalled;
  }

  /** Only a create removes one, and it never ends a run. */
  lemma SessionGone(c: Config, st: State, e: Event, id: string)
    requires id in st.sessions && id !in Step(c, st, e).sessions
    ensures e.CreateEvent? && e.id !in st.sessions && !st.sessions[id].Active()
  {
    if !e.CreateEvent? {
      OtherStepsKeepIds(c, st, e);
    } else {
      hide Create;
      StepIsCreate(c, st, e);
      if e.id in st.sessions {
        RenewalKeepsAll(c, st, e.now, e.key, e.cwd, e.id);
      }
      CreateKeepsActive(c, st, e.now, e.key, e.cwd, e.id);
    }
  }

  lemma RenewalKeepsAll(c: Config, st: State, now: int, key: string, cwd: string, id: string)
    requires id in st.sessions
    ensures Create(c, st, now, key, cwd, id).0.sessions.Keys == st.sessions.Keys
  {}

  /** A controller is told to abort exactly when a cancel, or a prompt before its own run, finds it in its session. */
  lemma AbortsAfter(c: Config, st: State, e: Event)
    ensures var told := (e.CancelEvent? || e.PromptEvent? || e.RefusedPromptEvent?)
                        && e.id in st.sessions && st.sessions[e.id].abortController.Some?;
            Step(c, st, e).aborted == st.aborted + if told then {st.sessions[e.id].abortController.value} else {}
  {
    hide Keep, Oldest, WithoutRun, Create;
    if e.CreateEvent? {
      CreateKeepsActive(c, st, e.now, e.key, e.cwd, e.id);
    }
  }

  /** The time of the last event that used the session or brought it. */
  function LastUse(c: Config, events: seq<Event>, id: string): int {
    if events == [] then 0
    else
      var init, e := events[..|events| - 1], events[|events| - 1];
      if id !in Run(c, init).sessions || Uses(Run(c, init), e, id) then e.now else LastUse(c, init, id)
  }

  /** In every reachable state a session's last touch is its last use. */
  lemma {:induction false} TouchIsLastUse(c: Config, events: seq<Event>, id: string)
    requires id in Run(c, events).sessions
    ensures Run(c, events).sessions[id].lastTouchedAt == LastUse(c, events, id)
  {
    hide Step, Uses;
    if events != [] {
      var init, e := events[..|events| - 1], events[|events| - 1];
      if id in Run(c, init).sessions {
        TouchIsLastUse(c, init, id);
        SessionAfter(c, Run(c, init), e, id);
      } else {
        SessionBorn(c, Run(c, init), e, id);
      }
    }
  }

  /** What reaping and eviction do to a session, told by its uses: a create for a new id takes every idle session that
      was not used for the time to live, and of the others at most the one that was used least recently, when the
      store is full. */
  lemma UnusedSessionsGo(c: Config, events: seq<Event>, e: Event, id: string)
    requires e.CreateEvent? && e.id !in Run(c, events).sessions && id in Run(c, events).sessions
    ensures var st, next := Run(c, events), Run(c, events + [e]);
            var unused := LastUse(c, events, id) <= e.now - c.Ttl();
            && (!st.sessions[id].Active() && unused ==> id !in next.sessions)
            && (st.sessions[id].Active() ==> id in next.sessions)
            && (!unused && id !in next.sessions ==>
                  var reaped := Reap(c, st, e.now);
                  |reaped.sessions| >= c.Max()
                  && exists j: nat :: LeastRecent(reaped.sessions, reaped.order, j) && reaped.order[j] == id)
  {
    hide Run, Keep, Oldest, LastUse, Step;
    var st := Run(c, events);
    RunPush(c, events, e);
    TouchIsLastUse(c, events, id);
    StepIsCreate(c, st, e);
    CreateKeepsActive(c, st, e.now, e.key, e.cwd, e.id);
    if id !in Create(c, st, e.now, e.key, e.cwd, e.id).0.sessions {
      CreateRemovesOnly(c, st, e.now, e.key, e.cwd, e.id, id);
    }
    if Expired(c, st.sessions[id], e.now) {
      CreateReaps(c, st, e.now, e.key, e.cwd, e.id, id);
    }
  }

  lemma RunPush(c: Config, events: seq<Event>, e: Event)
    ensures Run(c, events + [e]) == Step(c, Run(c, events), e)
  {
    hide Step;
    assert (events + [e])[..|events|] == events;
  }

  lemma CreateReaps(c: Config, st: State, now: int, key: string, cwd: string, id: string, gone: string)
    requires id !in st.sessions && gone in st.sessions && Expired(c, st.sessions[gone], now)
    ensures gone !in Create(c, st, now, key, cwd, id).0.sessions
  {
    hide Keep, Oldest, Expired;
    assert gone !in Reap(c, st, now).sessions;
  }
}
