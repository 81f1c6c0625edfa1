/** What the session store promises: a bound that holds after every history, eviction that only takes idle
    sessions, and a run index that is the inverse of the sessions' own run ids. */
module SessionStoreProperties {
  import opened JsMaps
  import opened SessionStores

  // ---------------------------------------------------------------- the eviction candidate

  /** `IsLruIdle`, among the first n entries. */
  ghost predicate IsLruAmong(st: Store, i: nat, n: nat)
    requires n <= |st.sessions.order|
  {
    var order, vals := st.sessions.order, st.sessions.values;
    && i < n && Idle(vals[order[i]])
    && (forall j :: 0 <= j < n && Idle(vals[order[j]]) ==>
          vals[order[i]].lastTouchedAt <= vals[order[j]].lastTouchedAt)
    && (forall j :: 0 <= j < i && Idle(vals[order[j]]) ==>
          vals[order[i]].lastTouchedAt < vals[order[j]].lastTouchedAt)
  }

  lemma {:induction false} OldestAmong(st: Store, n: nat) returns (i: nat)
    requires n <= |st.sessions.order|
    ensures Oldest(st, n).None? ==> forall j :: 0 <= j < n ==> !Idle(st.sessions.values[st.sessions.order[j]])
    ensures Oldest(st, n).Some? ==> IsLruAmong(st, i, n) && st.sessions.order[i] == Oldest(st, n).value
  {
    if n == 0 {
      i := 0;
    } else {
      i := OldestAmong(st, n - 1);
      if Oldest(st, n) != Oldest(st, n - 1) {
        i := n - 1;
      }
    }
  }

  /** The loop's choice is the least recently touched idle session, the first inserted among equals; it finds
      none exactly when every session is active. */
  lemma EvictionPicksLru(st: Store)
    ensures LruIdle(st).None? <==> NoIdle(st)
    ensures LruIdle(st).Some? ==> exists i: nat :: IsLruIdle(st, i) && st.sessions.order[i] == LruIdle(st).value
  {
    var i := OldestAmong(st, |st.sessions.order|);
    if LruIdle(st).Some? {
      assert IsLruIdle(st, i);
      assert st.sessions.order[i] in st.sessions.order;
    } else {
      forall sid | sid in st.sessions.values
        ensures !Idle(st.sessions.values[sid])
      {
        assert sid in st.sessions.order;
      }
    }
  }

  // ---------------------------------------------------------------- creating sessions

  /** Creating a session leaves every other session that is active exactly as it was, even when it fails. */
  lemma CreateKeepsActiveSessions(lim: Limits, st: Store, sid: Id, key: string, cwd: string, now: int, k: Id)
    requires k in st.sessions.values && !Idle(st.sessions.values[k]) && k != sid
    ensures var after := Create(lim, st, sid, key, cwd, now).store.sessions.values;
            k in after && after[k] == st.sessions.values[k]
  {
    var st1 := Reap(lim, st, now);
    EvictionPicksLru(st1);
    assert k in st1.sessions.values;
  }

  /** A failed or successful creation of a new session removes exactly the stale sessions and, if the survivors
      fill the store, the least recently touched idle survivor. */
  lemma CreateRemovesExactly(lim: Limits, st: Store, sid: Id, key: string, cwd: string, now: int, k: Id)
    requires sid !in st.sessions.values && k in st.sessions.values
    ensures var survivors := Reap(lim, st, now);
            var r := Create(lim, st, sid, key, cwd, now);
            k in r.store.sessions.values <==>
              && !Stale(lim, st.sessions.values[k], now)
              && !(r.Created? && survivors.sessions.Size() >= lim.maxSessions && LruIdle(survivors) == Some(k))
  {
  }

  /** Creation fails exactly when the survivors fill the store and eviction has no candidate, or its candidate
      is the session with the empty id, which the code mistakes for no candidate. */
  lemma CreateFailsExactlyWhen(lim: Limits, st: Store, sid: Id, key: string, cwd: string, now: int)
    ensures Create(lim, st, sid, key, cwd, now).LimitReached? <==>
            && sid !in st.sessions.values
            && Reap(lim, st, now).sessions.Size() >= lim.maxSessions
            && (NoIdle(Reap(lim, st, now)) || LruIdle(Reap(lim, st, now)) == Some(""))
  {
    EvictionPicksLru(Reap(lim, st, now));
  }

  /** "The limit is reached only when all slots hold active runs" is therefore false: one idle session whose id
      is empty keeps a store of size one closed to every other session, until the time limit passes. */
  lemma EmptyIdBlocksTheStore(lim: Limits, st: Store, sid: Id, key: string, cwd: string, now: int)
    requires st.sessions.order == [""] && lim.maxSessions == 1 && sid != ""
    requires "" in st.sessions.values && Idle(st.sessions.values[""])
    ensures Create(lim, st, sid, key, cwd, now).LimitReached? <==>
            now < st.sessions.values[""].lastTouchedAt + lim.idleTtlMs
  {
    var t := Reap(lim, st, now);
    assert "" in st.sessions.order && sid !in st.sessions.order;
    CreateFailsExactlyWhen(lim, st, sid, key, cwd, now);
    if Stale(lim, st.sessions.values[""], now) {
      assert t.sessions.order == [];
    } else {
      assert "" in t.sessions.values && "" in t.sessions.order;
      EvictionPicksLru(t);
    }
  }

  /** Such a store is reached by creating that session. */
  lemma EmptyIdIsReachable(now: int)
    ensures var st := Create(Limits(1, 1000), NewStore, "", "key", "/", 0).store;
            && Create(Limits(1, 1000), NewStore, "", "key", "/", 0).Created?
            && st.sessions.order == [""] && Idle(st.sessions.values[""])
            && (Create(Limits(1, 1000), st, "next", "key", "/", now).LimitReached? <==> now < 1000)
  {
    assert Reap(Limits(1, 1000), NewStore, 0).sessions.order == [];
    var st := Create(Limits(1, 1000), NewStore, "", "key", "/", 0).store;
    EmptyIdBlocksTheStore(Limits(1, 1000), st, "next", "key", "/", now);
  }

  // ---------------------------------------------------------------- the bound, after every history

  datatype Op =
    | OpCreate(sid: Id, key: string, cwd: string)
    | OpGet(sid: Id)
    | OpByRun(run: Id)
    | OpSetRun(sid: Id, run: Id, controller: Controller)
    | OpClearRun(sid: Id)
    | OpCancelRun(sid: Id)

  function Apply(lim: Limits, st: Store, op: Op, now: int): Store {
    match op
    case OpCreate(sid, key, cwd) => Create(lim, st, sid, key, cwd, now).store
    case OpGet(sid) => Touch(st, sid, now)
    case OpByRun(run) =>
      var found := SessionOfRun(st, run);
      if found.Some? then Touch(st, found.value, now) else st
    case OpSetRun(sid, run, c) => SetRun(st, sid, run, c, now)
    case OpClearRun(sid) => ClearRun(st, sid, now)
    case OpCancelRun(sid) => CancelRun(st, sid, now)
  }

  /** The store after a history of operations, each with its clock reading. */
  function History(lim: Limits, ops: seq<(Op, int)>): Store {
    if ops == [] then NewStore
    else
      var n := |ops| - 1;
      Apply(lim, History(lim, ops[..n]), ops[n].0, ops[n].1)
  }

  /** Only creation adds a session, and only below the limit. */
  lemma ApplyKeepsBound(lim: Limits, st: Store, op: Op, now: int)
    requires lim.maxSessions >= 1 && st.sessions.Size() <= lim.maxSessions
    ensures Apply(lim, st, op, now).sessions.Size() <= lim.maxSessions
  {
    match op {
      case OpCreate(sid, _, _) =>
        if !st.sessions.Has(sid) {
          var st1 := Reap(lim, st, now);
          if st1.sessions.Size() >= lim.maxSessions && Names(LruIdle(st1)) {
            assert LruIdle(st1).value in st1.sessions.values;
          }
        }
      case _ =>
    }
  }

  lemma {:induction false} NeverMoreThanMaxSessions(lim: Limits, ops: seq<(Op, int)>)
    requires lim.maxSessions >= 1
    ensures History(lim, ops).sessions.Size() <= lim.maxSessions
  {
    if ops != [] {
      var n := |ops| - 1;
      NeverMoreThanMaxSessions(lim, ops[..n]);
      ApplyKeepsBound(lim, History(lim, ops[..n]), ops[n].0, ops[n].1);
    }
  }

  // ---------------------------------------------------------------- the run index

  /** `runs` is exactly the inverse of the sessions' active run ids. */
  ghost predicate IndexOk(st: Store) {
    && (forall r :: r in st.runs ==>
          && r != "" && st.runs[r] in st.sessions.values
          && st.sessions.values[st.runs[r]].activeRunId == Some(r))
    && (forall sid :: sid in st.sessions.values ==> RunIndexed(st.runs, sid, st.sessions.values[sid].activeRunId))
  }

  ghost predicate RunIndexed(runs: map<Id, Id>, sid: Id, run: Option<Id>) {
    run.Some? ==> run.value in runs && runs[run.value] == sid
  }

  /** A run id and an abort controller are always set together. */
  ghost predicate Paired(st: Store) {
    forall sid :: sid in st.sessions.values ==> PairedSession(st.sessions.values[sid])
  }

  ghost predicate PairedSession(s: Session) {
    s.activeRunId.Some? <==> s.abortController.Some?
  }

  /** When recording a run keeps the index exact: the session has no run or already this one, and no other
      session has it. */
  predicate RunIsNew(st: Store, sid: Id, run: Id) {
    st.sessions.Has(sid) ==>
      && run != ""
      && (|| st.sessions.values[sid].activeRunId == Some(run)
          || (st.sessions.values[sid].activeRunId == None && run !in st.runs))
  }

  lemma SetRunKeepsIndexExactlyWhen(st: Store, sid: Id, run: Id, c: Controller, now: int)
    requires IndexOk(st)
    ensures IndexOk(SetRun(st, sid, run, c, now)) <==> RunIsNew(st, sid, run)
  {
    var t := SetRun(st, sid, run, c, now);
    if st.sessions.Has(sid) {
      if RunIsNew(st, sid, run) {
        SetRunIndex(st, sid, run, c, now);
      } else {
        var before := st.sessions.values[sid].activeRunId;
        if run == "" {
          assert "" in t.runs;
        } else if before.Some? {
          assert t.runs[before.value] == sid && t.sessions.values[sid].activeRunId != before;
        } else {
          var other := st.runs[run];
          assert RunIndexed(st.runs, other, Some(run));
          assert other != sid && other in t.sessions.values;
          assert !RunIndexed(t.runs, other, t.sessions.values[other].activeRunId);
        }
      }
    }
  }

  lemma SetRunIndex(st: Store, sid: Id, run: Id, c: Controller, now: int)
    requires IndexOk(st) && st.sessions.Has(sid) && RunIsNew(st, sid, run)
    ensures IndexOk(SetRun(st, sid, run, c, now))
  {
    var t := SetRun(st, sid, run, c, now);
    forall k | k in t.sessions.values
      ensures RunIndexed(t.runs, k, t.sessions.values[k].activeRunId)
    {
      if k != sid {
        assert RunIndexed(st.runs, k, st.sessions.values[k].activeRunId);
      }
    }
  }

  lemma RemoveSessionIndex(st: Store, sid: Id)
    requires IndexOk(st)
    ensures IndexOk(RemoveSession(st, sid))
  {
    var t := RemoveSession(st, sid);
    if st.sessions.Has(sid) {
      assert RunIndexed(st.runs, sid, st.sessions.values[sid].activeRunId);
      forall k | k in t.sessions.values
        ensures RunIndexed(t.runs, k, t.sessions.values[k].activeRunId)
      {
        assert RunIndexed(st.runs, k, st.sessions.values[k].activeRunId);
      }
    }
  }

  lemma ReapIndex(lim: Limits, st: Store, now: int)
    requires IndexOk(st)
    ensures IndexOk(Reap(lim, st, now))
  {
    var t := Reap(lim, st, now);
    forall k | k in t.sessions.values
      ensures RunIndexed(t.runs, k, t.sessions.values[k].activeRunId)
    {
      assert RunIndexed(st.runs, k, st.sessions.values[k].activeRunId);
    }
    forall r | r in t.runs
      ensures t.runs[r] in t.sessions.values && t.sessions.values[t.runs[r]].activeRunId == Some(r)
    {
      assert !Idle(st.sessions.values[st.runs[r]]);
    }
  }

  /** Storing a session whose run id does not change. */
  lemma UpdateIndex(st: Store, sid: Id, s: Session)
    requires IndexOk(st)
    requires s.activeRunId == if st.sessions.Has(sid) then st.sessions.values[sid].activeRunId else None
    ensures IndexOk(st.(sessions := Set(st.sessions, sid, s)))
  {
    var t := st.(sessions := Set(st.sessions, sid, s));
    forall k | k in t.sessions.values
      ensures RunIndexed(t.runs, k, t.sessions.values[k].activeRunId)
    {
      if k in st.sessions.values {
        assert RunIndexed(st.runs, k, st.sessions.values[k].activeRunId);
      }
    }
  }

  lemma CreateIndex(lim: Limits, st: Store, sid: Id, key: string, cwd: string, now: int)
    requires IndexOk(st)
    ensures IndexOk(Create(lim, st, sid, key, cwd, now).store)
  {
    if st.sessions.Has(sid) {
      UpdateIndex(st, sid, st.sessions.values[sid].(sessionKey := key, cwd := cwd, lastTouchedAt := now));
    } else {
      var created := Session(key, cwd, now, now, None, None);
      var st1 := Reap(lim, st, now);
      ReapIndex(lim, st, now);
      if st1.sessions.Size() < lim.maxSessions {
        UpdateIndex(st1, sid, created);
      } else if Names(LruIdle(st1)) {
        RemoveSessionIndex(st1, LruIdle(st1).value);
        UpdateIndex(RemoveSession(st1, LruIdle(st1).value), sid, created);
      }
    }
  }

  lemma TouchIndex(st: Store, sid: Id, now: int)
    requires IndexOk(st)
    ensures IndexOk(Touch(st, sid, now))
  {
    if st.sessions.Has(sid) {
      UpdateIndex(st, sid, st.sessions.values[sid].(lastTouchedAt := now));
    }
  }

  lemma ClearRunIndex(st: Store, sid: Id, now: int)
    requires IndexOk(st)
    ensures IndexOk(ClearRun(st, sid, now))
  {
    var t := ClearRun(st, sid, now);
    if st.sessions.Has(sid) {
      assert RunIndexed(st.runs, sid, st.sessions.values[sid].activeRunId);
      forall k | k in t.sessions.values
        ensures RunIndexed(t.runs, k, t.sessions.values[k].activeRunId)
      {
        assert RunIndexed(st.runs, k, st.sessions.values[k].activeRunId);
      }
    }
  }

  lemma CancelRunIndex(st: Store, sid: Id, now: int)
    requires IndexOk(st)
    ensures IndexOk(CancelRun(st, sid, now))
  {
    ClearRunIndex(st, sid, now);
  }

  /** Every operation keeps the index exact, recording a run under its exact condition. */
  lemma ApplyKeepsIndex(lim: Limits, st: Store, op: Op, now: int)
    requires IndexOk(st)
    ensures IndexOk(Apply(lim, st, op, now)) <==> (op.OpSetRun? ==> RunIsNew(st, op.sid, op.run))
  {
    match op {
      case OpCreate(sid, key, cwd) => CreateIndex(lim, st, sid, key, cwd, now);
      case OpGet(sid) => TouchIndex(st, sid, now);
      case OpByRun(run) =>
        var found := SessionOfRun(st, run);
        if found.Some? {
          TouchIndex(st, found.value, now);
        }
      case OpSetRun(sid, run, c) => SetRunKeepsIndexExactlyWhen(st, sid, run, c, now);
      case OpClearRun(sid) => ClearRunIndex(st, sid, now);
      case OpCancelRun(sid) => CancelRunIndex(st, sid, now);
    }
  }

  lemma ApplyKeepsPaired(lim: Limits, st: Store, op: Op, now: int)
    requires Paired(st)
    ensures Paired(Apply(lim, st, op, now))
  {
    match op {
      case OpCreate(sid, key, cwd) => CreatePaired(lim, st, sid, key, cwd, now);
      case _ =>
    }
  }

  lemma CreatePaired(lim: Limits, st: Store, sid: Id, key: string, cwd: string, now: int)
    requires Paired(st)
    ensures Paired(Create(lim, st, sid, key, cwd, now).store)
  {
    if !st.sessions.Has(sid) {
      var st1 := Reap(lim, st, now);
      ReapPaired(lim, st, now);
      if st1.sessions.Size() >= lim.maxSessions && Names(LruIdle(st1)) {
        RemovePaired(st1, LruIdle(st1).value);
      }
    }
  }

  lemma ReapPaired(lim: Limits, st: Store, now: int)
    requires Paired(st)
    ensures Paired(Reap(lim, st, now))
  {
  }

  lemma RemovePaired(st: Store, sid: Id)
    requires Paired(st)
    ensures Paired(RemoveSession(st, sid))
  {
  }

  /** Looking a run up finds the one session that is running it, unless that session's id is empty. */
  lemma LookupByRun(st: Store, run: Id, sid: Id)
    requires IndexOk(st)
    ensures SessionOfRun(st, run) == Some(sid) <==>
            sid != "" && sid in st.sessions.values && st.sessions.values[sid].activeRunId == Some(run)
  {
    if sid in st.sessions.values {
      assert RunIndexed(st.runs, sid, st.sessions.values[sid].activeRunId);
    }
  }

  /** Cancelling fires the session's own controller and no other, and frees the session. */
  lemma CancelAbortsOneController(st: Store, sid: Id, now: int, c: Controller)
    requires Paired(st)
    ensures c in CancelRun(st, sid, now).aborted <==>
            c in st.aborted || (st.sessions.Has(sid) && st.sessions.values[sid].abortController == Some(c))
    ensures st.sessions.Has(sid) ==> Idle(CancelRun(st, sid, now).sessions.values[sid])
  {
  }

  // ---------------------------------------------------------------- what an operation does to the sessions

  /** The session an operation uses. Cancelling a session without a controller does not count. */
  function UsedBy(st: Store, op: Op): Option<Id> {
    match op
    case OpCreate(sid, _, _) => Some(sid)
    case OpGet(sid) => Some(sid)
    case OpByRun(run) => if run in st.runs && st.runs[run] != "" then Some(st.runs[run]) else None
    case OpSetRun(sid, _, _) => Some(sid)
    case OpClearRun(sid) => Some(sid)
    case OpCancelRun(sid) =>
      if st.sessions.Has(sid) && st.sessions.values[sid].abortController.Some? then Some(sid) else None
  }

  /** Every operation leaves the session it uses touched now, and every other session it keeps exactly as it was. Only
      a creation adds or removes sessions. */
  lemma ApplyTouches(lim: Limits, st: Store, op: Op, now: int, k: Id)
    ensures var t := Apply(lim, st, op, now);
            && (t.sessions.Has(k) ==>
                  if UsedBy(st, op) == Some(k) then t.sessions.values[k].lastTouchedAt == now
                  else st.sessions.Has(k) && t.sessions.values[k] == st.sessions.values[k])
            && (!op.OpCreate? ==> (t.sessions.Has(k) <==> st.sessions.Has(k)))
  {
    match op {
      case OpCreate(sid, key, cwd) => CreateTouches(lim, st, sid, key, cwd, now, k);
      case _ =>
    }
  }

  lemma CreateTouches(lim: Limits, st: Store, sid: Id, key: string, cwd: string, now: int, k: Id)
    ensures var r := Create(lim, st, sid, key, cwd, now);
            var t := r.store;
            && (r.Created? ==> t.sessions.Has(sid) && t.sessions.values[sid].lastTouchedAt == now)
            && (t.sessions.Has(k) && k != sid ==> st.sessions.Has(k) && t.sessions.values[k] == st.sessions.values[k])
            && (t.sessions.Has(k) && r.LimitReached? ==>
                  k != sid && st.sessions.Has(k) && t.sessions.values[k] == st.sessions.values[k])
  {
  }

  /** A lookup changes nothing but the time; what an operation does to the session it uses, field by field. */
  lemma UsedSessionBecomes(lim: Limits, st: Store, op: Op, now: int)
    requires UsedBy(st, op).Some? && st.sessions.Has(UsedBy(st, op).value)
    ensures var sid := UsedBy(st, op).value;
            var was, t := st.sessions.values[sid], Apply(lim, st, op, now);
            && t.sessions.Has(sid)
            && t.sessions.values[sid] ==
               match op
               case OpCreate(_, key, cwd) =>
                 Session(key, cwd, was.createdAt, now, was.abortController, was.activeRunId)
               case OpSetRun(_, run, c) => Session(was.sessionKey, was.cwd, was.createdAt, now, Some(c), Some(run))
               case OpClearRun(_) => Session(was.sessionKey, was.cwd, was.createdAt, now, None, None)
               case OpCancelRun(_) => Session(was.sessionKey, was.cwd, was.createdAt, now, None, None)
               case _ => Session(was.sessionKey, was.cwd, was.createdAt, now, was.abortController, was.activeRunId)
  {
  }

  /** A session that was used is not reaped before the time limit has passed since. */
  lemma UsedSessionOutlivesReaping(lim: Limits, st: Store, op: Op, now: int, later: int)
    requires UsedBy(st, op).Some? && st.sessions.Has(UsedBy(st, op).value) && later < now + lim.idleTtlMs
    ensures Reap(lim, Apply(lim, st, op, now), later).sessions.Has(UsedBy(st, op).value)
  {
    UsedSessionBecomes(lim, st, op, now);
  }

  /** Removing an entry takes away that session alone, unindexes its run and aborts its controller. */
  lemma RemovedEntry(st: Store, sid: Id, k: Id, c: Controller)
    requires IndexOk(st)
    ensures var t := RemoveSession(st, sid);
            && IndexOk(t) && !t.sessions.Has(sid)
            && (k != sid ==> (t.sessions.Has(k) <==> st.sessions.Has(k))
                             && (st.sessions.Has(k) ==> t.sessions.values[k] == st.sessions.values[k]))
            && (c in t.aborted <==>
                c in st.aborted || (st.sessions.Has(sid) && st.sessions.values[sid].abortController == Some(c)))
  {
    RemoveSessionIndex(st, sid);
  }
}
