/** The in-memory ACP session store of src/acp/session.ts: a bounded map with idle reaping, least-recently-used
    eviction and a reverse index from run ids to session ids. Ids are strings because the code tests them for
    being empty. Every operation reads the clock once, through its `now` argument. */
module SessionStores {
  import opened JsMaps

  type Id = string
  type Controller = nat

  datatype Session = Session(
    sessionKey: string,
    cwd: string,
    createdAt: int,
    lastTouchedAt: int,
    abortController: Option<Controller>,
    activeRunId: Option<Id>)

  datatype Limits = Limits(maxSessions: nat, idleTtlMs: nat)

  datatype Store = Store(
    sessions: JsMap<Id, Session>,
    runs: map<Id, Id>,          // run id -> session id
    aborted: set<Controller>)   // controllers whose signal has fired

  datatype CreateResult = Created(store: Store) | LimitReached(store: Store)

  const NewStore := Store(Empty<Id, Session>(), map[], {})

  /** A run id that a truthiness test accepts. */
  predicate Names(id: Option<Id>) {
    id.Some? && id.value != ""
  }

  predicate Idle(s: Session) {
    !Names(s.activeRunId) && s.abortController.None?
  }

  function Forget(runs: map<Id, Id>, run: Option<Id>): map<Id, Id> {
    if Names(run) then runs - {run.value} else runs
  }

  function Abort(aborted: set<Controller>, c: Option<Controller>): set<Controller> {
    match c
    case None => aborted
    case Some(c) => aborted + {c}
  }

  function RemoveSession(st: Store, sid: Id): Store {
    if !st.sessions.Has(sid) then st
    else
      var s := st.sessions.values[sid];
      Store(Remove(st.sessions, sid), Forget(st.runs, s.activeRunId), Abort(st.aborted, s.abortController))
  }

  /** Idle for the whole TTL. */
  predicate Stale(lim: Limits, s: Session, now: int) {
    Idle(s) && s.lastTouchedAt <= now - lim.idleTtlMs
  }

  function Survives(lim: Limits, now: int): Session -> bool {
    (s: Session) => !Stale(lim, s, now)
  }

  /** Reaping keeps exactly the sessions that are active or were touched within the TTL. */
  function Reap(lim: Limits, st: Store, now: int): Store {
    st.(sessions := Filter(st.sessions, Survives(lim, now)))
  }

  /** The session at position i is idle, no idle session is older, and none before it is as old. */
  ghost predicate IsLruIdle(st: Store, i: nat) {
    var order, vals := st.sessions.order, st.sessions.values;
    && i < |order| && Idle(vals[order[i]])
    && (forall j :: 0 <= j < |order| && Idle(vals[order[j]]) ==>
          vals[order[i]].lastTouchedAt <= vals[order[j]].lastTouchedAt)
    && (forall j :: 0 <= j < i && Idle(vals[order[j]]) ==>
          vals[order[i]].lastTouchedAt < vals[order[j]].lastTouchedAt)
  }

  ghost predicate NoIdle(st: Store) {
    forall sid :: sid in st.sessions.values ==> !Idle(st.sessions.values[sid])
  }

  /** The session that eviction selects, as the loop leaves it after the first n entries. */
  function Oldest(st: Store, n: nat): (best: Option<Id>)
    requires n <= |st.sessions.order|
    ensures best.Some? ==> best.value in st.sessions.values
  {
    if n == 0 then None
    else
      var sid := st.sessions.order[n - 1];
      var best := Oldest(st, n - 1);
      var s := st.sessions.values[sid];
      if !Idle(s) then best
      else if best.Some? && s.lastTouchedAt >= st.sessions.values[best.value].lastTouchedAt then best
      else Some(sid)
  }

  function LruIdle(st: Store): Option<Id> {
    Oldest(st, |st.sessions.order|)
  }

  /** Eviction treats the empty id like no candidate at all. */
  function Create(lim: Limits, st: Store, sid: Id, key: string, cwd: string, now: int): CreateResult {
    if st.sessions.Has(sid) then
      var s := st.sessions.values[sid].(sessionKey := key, cwd := cwd, lastTouchedAt := now);
      Created(st.(sessions := Set(st.sessions, sid, s)))
    else
      var st1 := Reap(lim, st, now);
      var created := Session(key, cwd, now, now, None, None);
      if st1.sessions.Size() < lim.maxSessions then
        Created(st1.(sessions := Set(st1.sessions, sid, created)))
      else if !Names(LruIdle(st1)) then LimitReached(st1)
      else
        var st2 := RemoveSession(st1, LruIdle(st1).value);
        Created(st2.(sessions := Set(st2.sessions, sid, created)))
  }

  function Touch(st: Store, sid: Id, now: int): Store {
    if !st.sessions.Has(sid) then st
    else st.(sessions := Set(st.sessions, sid, st.sessions.values[sid].(lastTouchedAt := now)))
  }

  function SetRun(st: Store, sid: Id, run: Id, c: Controller, now: int): Store {
    if !st.sessions.Has(sid) then st
    else
      var s := st.sessions.values[sid].(activeRunId := Some(run), abortController := Some(c), lastTouchedAt := now);
      st.(sessions := Set(st.sessions, sid, s), runs := st.runs[run := sid])
  }

  function ClearRun(st: Store, sid: Id, now: int): Store {
    if !st.sessions.Has(sid) then st
    else
      var s := st.sessions.values[sid];
      var s' := s.(activeRunId := None, abortController := None, lastTouchedAt := now);
      st.(sessions := Set(st.sessions, sid, s'), runs := Forget(st.runs, s.activeRunId))
  }

  predicate Cancellable(st: Store, sid: Id) {
    st.sessions.Has(sid) && st.sessions.values[sid].abortController.Some?
  }

  function CancelRun(st: Store, sid: Id, now: int): Store {
    if !Cancellable(st, sid) then st
    else ClearRun(st, sid, now).(aborted := Abort(st.aborted, st.sessions.values[sid].abortController))
  }

  function SessionOfRun(st: Store, run: Id): (sid: Option<Id>) {
    if run in st.runs && st.runs[run] != "" && st.sessions.Has(st.runs[run]) then Some(st.runs[run]) else None
  }

  // ---------------------------------------------------------------- the store object

  class SessionStore {
    const limits: Limits
    var sessions: JsMap<Id, Session>
    var runIdToSessionId: map<Id, Id>
    var aborted: set<Controller>

    constructor (maxSessions: int := 5000, idleTtlMs: int := 86400000)
      ensures State() == NewStore
      ensures limits.maxSessions >= 1 && limits.idleTtlMs >= 1000
      ensures maxSessions >= 1 ==> limits.maxSessions == maxSessions
      ensures idleTtlMs >= 1000 ==> limits.idleTtlMs == idleTtlMs
    {
      limits := Limits(if maxSessions < 1 then 1 else maxSessions, if idleTtlMs < 1000 then 1000 else idleTtlMs);
      sessions := Empty<Id, Session>();
      runIdToSessionId := map[];
      aborted := {};
    }

    ghost function State(): Store
      reads this
    {
      Store(sessions, runIdToSessionId, aborted)
    }

    method RemoveEntry(sessionId: Id) returns (removed: bool)
      modifies this
      ensures State() == RemoveSession(old(State()), sessionId)
      ensures removed == old(sessions.Has(sessionId))
    {
      if !sessions.Has(sessionId) {
        return false;
      }
      var session := sessions.values[sessionId];
      if Names(session.activeRunId) {
        runIdToSessionId := runIdToSessionId - {session.activeRunId.value};
      }
      if session.abortController.Some? {
        aborted := aborted + {session.abortController.value};
      }
      sessions := Remove(sessions, sessionId);
      return true;
    }

    /** Deleting while iterating: the loop runs over the entries present when it started. */
    method ReapIdleSessions(now: int)
      modifies this
      ensures State() == Reap(limits, old(State()), now)
    {
      var idleBefore := now - limits.idleTtlMs;
      var entries := sessions.order;
      ghost var start := State();
      var i := 0;
      while i < |entries|
        invariant 0 <= i <= |entries| && entries == start.sessions.order
        invariant State() == ReapFirst(limits, start, now, i)
      {
        var sessionId := entries[i];
        ReapFirstNext(limits, start, now, i);
        i := i + 1;
        var session := sessions.values[sessionId];
        if Names(session.activeRunId) || session.abortController.Some? {
          continue;
        }
        if session.lastTouchedAt > idleBefore {
          continue;
        }
        var _ := RemoveEntry(sessionId);
      }
      ReapFirstAll(limits, start, now);
    }

    /** The minimum search: the strict comparison keeps the first of equally old sessions. */
    method EvictOldestIdleSession() returns (evicted: bool)
      modifies this
      ensures evicted == Names(LruIdle(old(State())))
      ensures State() == if evicted then RemoveSession(old(State()), LruIdle(old(State())).value) else old(State())
    {
      var oldestSessionId: Option<Id> := None;
      var oldestLastTouchedAt := 0;
      var i := 0;
      while i < |sessions.order|
        invariant 0 <= i <= |sessions.order| && State() == old(State())
        invariant oldestSessionId == Oldest(State(), i)
        invariant oldestSessionId.Some? ==>
          oldestLastTouchedAt == sessions.values[oldestSessionId.value].lastTouchedAt
      {
        var sessionId := sessions.order[i];
        var session := sessions.values[sessionId];
        i := i + 1;
        if Names(session.activeRunId) || session.abortController.Some? {
          continue;
        }
        if oldestSessionId.Some? && session.lastTouchedAt >= oldestLastTouchedAt {
          continue;
        }
        oldestLastTouchedAt := session.lastTouchedAt;
        oldestSessionId := Some(sessionId);
      }
      if !Names(oldestSessionId) {
        return false;
      }
      evicted := RemoveEntry(oldestSessionId.value);
    }

    method CreateSession(sessionId: Id, sessionKey: string, cwd: string, now: int) returns (ok: bool)
      modifies this
      ensures var r := Create(limits, old(State()), sessionId, sessionKey, cwd, now);
              ok == r.Created? && State() == r.store
    {
      if sessions.Has(sessionId) {
        var session := sessions.values[sessionId].(sessionKey := sessionKey, cwd := cwd, lastTouchedAt := now);
        sessions := Set(sessions, sessionId, session);
        return true;
      }
      ReapIdleSessions(now);
      if sessions.Size() >= limits.maxSessions {
        var evicted := EvictOldestIdleSession();
        if !evicted {
          return false;
        }
      }
      sessions := Set(sessions, sessionId, Session(sessionKey, cwd, now, now, None, None));
      return true;
    }

    method GetSession(sessionId: Id, now: int) returns (session: Option<Session>)
      modifies this
      ensures State() == Touch(old(State()), sessionId, now)
      ensures session == if sessions.Has(sessionId) then Some(sessions.values[sessionId]) else None
    {
      if !sessions.Has(sessionId) {
        return None;
      }
      sessions := Set(sessions, sessionId, sessions.values[sessionId].(lastTouchedAt := now));
      return Some(sessions.values[sessionId]);
    }

    method GetSessionByRunId(runId: Id, now: int) returns (found: Option<Id>)
      modifies this
      ensures found == SessionOfRun(old(State()), runId)
      ensures State() == if found.Some? then Touch(old(State()), found.value, now) else old(State())
    {
      if runId !in runIdToSessionId || runIdToSessionId[runId] == "" {
        return None;
      }
      var sessionId := runIdToSessionId[runId];
      var session := GetSession(sessionId, now);
      return if session.Some? then Some(sessionId) else None;
    }

    method SetActiveRun(sessionId: Id, runId: Id, controller: Controller, now: int)
      modifies this
      ensures State() == SetRun(old(State()), sessionId, runId, controller, now)
    {
      if !sessions.Has(sessionId) {
        return;
      }
      var session := sessions.values[sessionId].(activeRunId := Some(runId), abortController := Some(controller));
      runIdToSessionId := runIdToSessionId[runId := sessionId];
      sessions := Set(sessions, sessionId, session.(lastTouchedAt := now));
    }

    method ClearActiveRun(sessionId: Id, now: int)
      modifies this
      ensures State() == ClearRun(old(State()), sessionId, now)
    {
      if !sessions.Has(sessionId) {
        return;
      }
      var session := sessions.values[sessionId];
      if Names(session.activeRunId) {
        runIdToSessionId := runIdToSessionId - {session.activeRunId.value};
      }
      session := session.(activeRunId := None, abortController := None, lastTouchedAt := now);
      sessions := Set(sessions, sessionId, session);
    }

    method CancelActiveRun(sessionId: Id, now: int) returns (cancelled: bool)
      modifies this
      ensures State() == CancelRun(old(State()), sessionId, now)
      ensures cancelled == Cancellable(old(State()), sessionId)
    {
      if !sessions.Has(sessionId) || sessions.values[sessionId].abortController.None? {
        return false;
      }
      var session := sessions.values[sessionId];
      aborted := aborted + {session.abortController.value};
      if Names(session.activeRunId) {
        runIdToSessionId := runIdToSessionId - {session.activeRunId.value};
      }
      session := session.(abortController := None, activeRunId := None, lastTouchedAt := now);
      sessions := Set(sessions, sessionId, session);
      return true;
    }
  }

  // ---------------------------------------------------------------- the reaping loop

  /** The store after the reaping loop has looked at its first n entries. */
  function ReapFirst(lim: Limits, st: Store, now: int, n: nat): (r: Store)
    requires n <= |st.sessions.order|
  {
    if n == 0 then st
    else
      var r := ReapFirst(lim, st, now, n - 1);
      var sid := st.sessions.order[n - 1];
      if Stale(lim, st.sessions.values[sid], now) then RemoveSession(r, sid) else r
  }

  /** The reaping loop touches neither the index nor the controllers. */
  lemma {:induction false} ReapFirstRuns(lim: Limits, st: Store, now: int, n: nat)
    requires n <= |st.sessions.order|
    ensures var r := ReapFirst(lim, st, now, n); r.runs == st.runs && r.aborted == st.aborted
    ensures ReapFirst(lim, st, now, n).sessions.values.Keys <= st.sessions.values.Keys
    ensures forall k :: k in ReapFirst(lim, st, now, n).sessions.values ==>
              ReapFirst(lim, st, now, n).sessions.values[k] == st.sessions.values[k]
  {
    if n > 0 {
      ReapFirstRuns(lim, st, now, n - 1);
    }
  }

  lemma KeyOnce(order: seq<Id>, vals: map<Id, Session>, keep: Session -> bool, n: nat)
    requires Distinct(order) && 0 < n <= |order| && forall k :: k in order ==> k in vals
    ensures order[n - 1] !in FilterKeys(order[..n - 1], vals, keep) + order[n..]
  {
    var before := order[..n - 1];
    assert order[n - 1] !in before;
  }

  lemma {:induction false} ReapFirstOrder(lim: Limits, st: Store, now: int, n: nat)
    requires n <= |st.sessions.order|
    ensures ReapFirst(lim, st, now, n).sessions.order ==
            FilterKeys(st.sessions.order[..n], st.sessions.values, Survives(lim, now)) + st.sessions.order[n..]
  {
    var order, vals, keep := st.sessions.order, st.sessions.values, Survives(lim, now);
    if n > 0 {
      var k := order[n - 1];
      ReapFirstOrder(lim, st, now, n - 1);
      ReapFirstRuns(lim, st, now, n - 1);
      ReapOrderStep(order, vals, keep, n);
      assert k in ReapFirst(lim, st, now, n - 1).sessions.order;
    } else {
      assert order[..0] == [] && order[0..] == order;
    }
  }

  lemma ReapOrderStep(order: seq<Id>, vals: map<Id, Session>, keep: Session -> bool, n: nat)
    requires Distinct(order) && 0 < n <= |order| && forall k :: k in order ==> k in vals
    ensures var k := order[n - 1];
            var before := FilterKeys(order[..n - 1], vals, keep) + order[n - 1..];
            k in before &&
            FilterKeys(order[..n], vals, keep) + order[n..] == if keep(vals[k]) then before else Without(before, k)
  {
    var k := order[n - 1];
    KeyOnce(order, vals, keep, n);
    var kept := FilterKeys(order[..n - 1], vals, keep);
    assert order[..n] == order[..n - 1] + [k];
    assert order[n - 1..] == [k] + order[n..];
    FilterKeysAppend(order[..n - 1], k, vals, keep);
    WithoutMiddle(kept, k, order[n..]);
  }

  /** The session the loop looks at next is still there, unchanged. */
  lemma ReapFirstNext(lim: Limits, st: Store, now: int, n: nat)
    requires n < |st.sessions.order|
    ensures var sid := st.sessions.order[n];
            var r := ReapFirst(lim, st, now, n);
            sid in r.sessions.values && r.sessions.values[sid] == st.sessions.values[sid]
  {
    ReapFirstOrder(lim, st, now, n);
    ReapFirstRuns(lim, st, now, n);
    assert st.sessions.order[n] in st.sessions.order[n..];
  }

  lemma SameMap(m: JsMap<Id, Session>, n: JsMap<Id, Session>, base: map<Id, Session>)
    requires m.order == n.order
    requires forall k :: k in m.values ==> k in base && m.values[k] == base[k]
    requires forall k :: k in n.values ==> k in base && n.values[k] == base[k]
    ensures m == n
  {
    assert forall k :: k in m.values <==> k in m.order;
    assert forall k :: k in n.values <==> k in n.order;
    assert m.values.Keys == n.values.Keys;
  }

  lemma ReapFirstAll(lim: Limits, st: Store, now: int)
    ensures ReapFirst(lim, st, now, |st.sessions.order|) == Reap(lim, st, now)
  {
    var n := |st.sessions.order|;
    ReapFirstOrder(lim, st, now, n);
    ReapFirstRuns(lim, st, now, n);
    assert st.sessions.order[..n] == st.sessions.order;
    SameMap(ReapFirst(lim, st, now, n).sessions, Reap(lim, st, now).sessions, st.sessions.values);
  }

  lemma {:induction false} FilterKeysAppend(ks: seq<Id>, k: Id, values: map<Id, Session>, keep: Session -> bool)
    requires k in values && forall x :: x in ks ==> x in values
    ensures FilterKeys(ks + [k], values, keep) ==
            FilterKeys(ks, values, keep) + (if keep(values[k]) then [k] else [])
  {
    if ks == [] {
      assert ks + [k] == [k];
      assert [k][1..] == [];
    } else {
      assert (ks + [k])[1..] == ks[1..] + [k];
      FilterKeysAppend(ks[1..], k, values, keep);
    }
  }

  lemma {:induction false} WithoutMiddle(xs: seq<Id>, k: Id, ys: seq<Id>)
    requires k !in xs + ys
    ensures Without(xs + ([k] + ys), k) == xs + ys
  {
    if xs == [] {
      assert xs + ([k] + ys) == [k] + ys && xs + ys == ys;
      WithoutAbsent(ys, k);
      assert ([k] + ys)[1..] == ys;
    } else {
      assert (xs + ([k] + ys))[1..] == xs[1..] + ([k] + ys);
      WithoutMiddle(xs[1..], k, ys);
      assert xs[1..] + ys == (xs + ys)[1..];
    }
  }
}
