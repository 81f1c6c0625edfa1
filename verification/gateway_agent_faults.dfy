/** When the agent leaves a settled run active, and the shortest runs from a new agent that lose a prompt, hide its
    end, or strand its run. */
module GatewayAgentFaults {
  import opened JsMaps
  import opened SessionStores
  import opened SessionStoreProperties
  import opened GatewayAgents
  import opened GatewayAgentProperties

  // ---------------------------------------------------------------- settled runs that stay active

  /** No session is busy with a run whose prompt has settled. */
  ghost predicate LiveRuns(a: Agent) {
    forall sid :: sid in a.store.sessions.values ==> LiveRun(a.settled, a.store.sessions.values[sid].activeRunId)
  }

  predicate LiveRun(settled: map<Id, Settlement>, run: Option<Id>) {
    run.Some? ==> run.value !in settled
  }

  /** A cancel comes back from its await and finds a prompt pending on a session with an active run. */
  predicate CancelStrands(a: Agent, e: Event) {
    && e.CancelEnd?
    && a.pending.Has(e.sid)
    && a.store.sessions.Has(e.sid)
    && a.store.sessions.values[e.sid].activeRunId.Some?
  }

  /** The end of such a cancel is the one event that settles a run and leaves it active. */
  lemma StrandsExactlyWhen(lim: Limits, a: Agent, e: Event, now: int)
    requires Inv(a) && LiveRuns(a) && Enabled(a, e)
    ensures LiveRuns(Next(lim, a, e, now)) <==> !CancelStrands(a, e)
  {
    hide LiveRuns, Inv, Create, OnPrompt, OnRequestFailed, OnCancelEnd, OnChat, OnTool, OnDisconnect, Touch, CancelRun;
    match e {
      case CreateSession(sid, key, cwd) => CreateStaysLive(lim, a, sid, key, cwd, now);
      case Prompt(sid, run, c, fits) => PromptStaysLive(a, sid, run, c, fits, now);
      case RequestFailed(run) => FailureStaysLive(a, run, now);
      case CancelEnd(sid) => CancelEndLive(a, sid);
      case Chat(key, runId, state) => ChatStaysLive(a, key, runId, state, now);
      case Disconnect => DisconnectStaysLive(a, now);
      case SetMode(sid) => TouchStaysLive(a, sid, now);
      case CancelBegin(sid) => TouchStaysLive(a, sid, now);
      case Tool(key, id, phase) => ToolStaysLive(a, key, id, phase);
      case RequestDone(run) => NarrowerStaysLive(a, a.(requests := a.requests - {run}));
    }
  }

  /** From a new agent, every run without such an event ends with no settled run active. */
  lemma {:induction false} RunsStayLive(lim: Limits, a: Agent, es: seq<(Event, int)>, b: Agent)
    requires Inv(a) && LiveRuns(a) && Run(lim, a, es, b) && StrandsNothing(lim, a, es)
    ensures LiveRuns(b)
    decreases |es|
  {
    if es != [] {
      NextInv(lim, a, es[0].0, es[0].1);
      StrandsExactlyWhen(lim, a, es[0].0, es[0].1);
      RunsStayLive(lim, Next(lim, a, es[0].0, es[0].1), es[1..], b);
    }
  }

  ghost predicate StrandsNothing(lim: Limits, a: Agent, es: seq<(Event, int)>)
    decreases |es|
  {
    es != [] && Enabled(a, es[0].0) ==>
      !CancelStrands(a, es[0].0) && StrandsNothing(lim, Next(lim, a, es[0].0, es[0].1), es[1..])
  }

  /** No session of t has a run that it did not have in st. */
  ghost predicate NoNewRuns(st: Store, t: Store) {
    forall k :: k in t.sessions.values && t.sessions.values[k].activeRunId.Some? ==>
      k in st.sessions.values && st.sessions.values[k].activeRunId == t.sessions.values[k].activeRunId
  }

  predicate NotActive(st: Store, sid: Id) {
    st.sessions.Has(sid) ==> st.sessions.values[sid].activeRunId.None?
  }

  /** A run settles without being stranded if its session has let go of it. */
  lemma SettledStaysLive(a: Agent, b: Agent)
    requires LiveRuns(a) && Owned(a.store, a.owner) && NoNewRuns(a.store, b.store)
    requires forall q :: q in b.settled ==> q in a.settled || (q in a.owner && NotActive(b.store, a.owner[q]))
    ensures LiveRuns(b)
  {
    forall k | k in b.store.sessions.values
      ensures LiveRun(b.settled, b.store.sessions.values[k].activeRunId)
    {
      if b.store.sessions.values[k].activeRunId.Some? {
        assert RunOwned(k, a.store.sessions.values[k].activeRunId, a.owner);
        assert LiveRun(a.settled, a.store.sessions.values[k].activeRunId);
      }
    }
  }

  lemma NarrowerStaysLive(a: Agent, b: Agent)
    requires Inv(a) && LiveRuns(a) && NoNewRuns(a.store, b.store) && b.settled == a.settled
    ensures LiveRuns(b)
  {
    SettledStaysLive(a, b);
  }

  lemma TouchStaysLive(a: Agent, sid: Id, now: int)
    requires Inv(a) && LiveRuns(a)
    ensures LiveRuns(a.(store := Touch(a.store, sid, now)))
    ensures LiveRuns(a.(store := CancelRun(Touch(a.store, sid, now), sid, now)))
  {
    NarrowerStaysLive(a, a.(store := Touch(a.store, sid, now)));
    NarrowerStaysLive(a, a.(store := CancelRun(Touch(a.store, sid, now), sid, now)));
  }

  lemma ToolStaysLive(a: Agent, key: string, id: string, phase: ToolPhase)
    requires Inv(a) && LiveRuns(a)
    ensures LiveRuns(OnTool(a, key, id, phase))
  {
    NarrowerStaysLive(a, OnTool(a, key, id, phase));
  }

  lemma CreateStaysLive(lim: Limits, a: Agent, sid: Id, key: string, cwd: string, now: int)
    requires Inv(a) && LiveRuns(a)
    ensures LiveRuns(a.(store := Create(lim, a.store, sid, key, cwd, now).store))
  {
    CreateOk(lim, a.store, a.owner, sid, key, cwd, now);
    NarrowerStaysLive(a, a.(store := Create(lim, a.store, sid, key, cwd, now).store));
  }

  lemma PromptStaysLive(a: Agent, sid: Id, run: Id, c: Controller, fits: bool, now: int)
    requires Inv(a) && LiveRuns(a) && Enabled(a, Prompt(sid, run, c, fits))
    ensures LiveRuns(OnPrompt(a, sid, run, c, fits, now))
  {
    var b := OnPrompt(a, sid, run, c, fits, now);
    forall k | k in b.store.sessions.values
      ensures LiveRun(b.settled, b.store.sessions.values[k].activeRunId)
    {
      assert LiveRun(a.settled, a.store.sessions.values[k].activeRunId);
    }
  }

  lemma FailureStaysLive(a: Agent, run: Id, now: int)
    requires Inv(a) && LiveRuns(a) && Enabled(a, RequestFailed(run))
    ensures LiveRuns(OnRequestFailed(a, run, now))
  {
    SettledStaysLive(a, OnRequestFailed(a, run, now));
  }

  lemma FinishStaysLive(a: Agent, sid: Id, how: Settlement, now: int)
    requires Inv(a) && LiveRuns(a) && a.pending.Has(sid)
    ensures LiveRuns(Finish(a, sid, how, now))
  {
    SettledStaysLive(a, Finish(a, sid, how, now));
  }

  lemma ChatStaysLive(a: Agent, key: string, runId: Option<Id>, state: ChatState, now: int)
    requires Inv(a) && LiveRuns(a)
    ensures LiveRuns(OnChat(a, key, runId, state, now))
  {
    if Addressed(a, key, runId) {
      var sid := FindPending(a, key).value;
      match state {
        case Final => FinishStaysLive(a, sid, EndTurn, now);
        case Aborted => FinishStaysLive(a, sid, Cancelled, now);
        case Error => FinishStaysLive(a, sid, Refusal, now);
        case _ =>
      }
    }
  }

  lemma CancelEndLive(a: Agent, sid: Id)
    requires Inv(a) && LiveRuns(a)
    ensures LiveRuns(OnCancelEnd(a, sid)) <==> !CancelStrands(a, Event.CancelEnd(sid))
  {
    var b := OnCancelEnd(a, sid);
    if CancelStrands(a, Event.CancelEnd(sid)) {
      assert !LiveRun(b.settled, b.store.sessions.values[sid].activeRunId);
    } else {
      SettledStaysLive(a, b);
    }
  }

  lemma DisconnectStaysLive(a: Agent, now: int)
    requires Inv(a) && LiveRuns(a)
    ensures LiveRuns(OnDisconnect(a, now))
  {
    var b := OnDisconnect(a, now);
    forall k | k in a.store.sessions.values
      ensures k in b.store.sessions.values
      ensures b.store.sessions.values[k].activeRunId ==
              if k in a.pending.order then None else a.store.sessions.values[k].activeRunId
    {
      ClearRunsClear(a.store, a.pending.order, now, k);
    }
    ClearRunsKeys(a.store, a.pending.order, now);
    forall q | q in b.settled
      ensures q in a.settled || (q in a.owner && NotActive(b.store, a.owner[q]))
    {
      RejectAllKeys(a.settled, a.pending.order, a.pending.values, q);
      if q !in a.settled {
        var k :| k in a.pending.order && a.pending.values[k].run == q;
        assert k in a.pending.values;
      }
    }
    SettledStaysLive(a, b);
  }

  lemma {:induction false} ClearRunsKeys(st: Store, sids: seq<Id>, now: int)
    ensures ClearRuns(st, sids, now).sessions.values.Keys == st.sessions.values.Keys
    decreases |sids|
  {
    if sids != [] {
      ClearRunsKeys(ClearRun(st, sids[0], now), sids[1..], now);
    }
  }

  lemma {:induction false} ClearRunsClear(st: Store, sids: seq<Id>, now: int, k: Id)
    requires k in st.sessions.values
    ensures var t := ClearRuns(st, sids, now);
            && k in t.sessions.values
            && t.sessions.values[k].activeRunId == if k in sids then None else st.sessions.values[k].activeRunId
    decreases |sids|
  {
    if sids != [] {
      ClearRunsClear(ClearRun(st, sids[0], now), sids[1..], now, k);
      assert k in sids <==> k == sids[0] || k in sids[1..];
    }
  }

  /** A prompt that arrives while a cancel waits for chat.abort is cancelled with it, although its run was never
      aborted and stays active in the store. */
  lemma CancelHitsLaterPrompt(lim: Limits, a: Agent, sid: Id, run: Id, c: Controller, now: int)
    requires PendingOk(a) && a.store.sessions.Has(sid) && run != "" && run !in a.owner && c !in a.store.aborted
    requires a.store.sessions.values[sid].abortController != Some(c)
    ensures var b := Next(lim, Next(lim, a, Prompt(sid, run, c, true), now), Event.CancelEnd(sid), now);
            && run in b.settled && b.settled[run] == Cancelled
            && b.store.sessions.Has(sid) && b.store.sessions.values[sid].activeRunId == Some(run)
            && c !in b.store.aborted && !b.pending.Has(sid)
  {
    var b := OnPrompt(a, sid, run, c, true, now);
    PromptLeaves(a, sid, run, c, now);
    assert OnCancelEnd(b, sid).store == b.store;
  }

  lemma PromptLeaves(a: Agent, sid: Id, run: Id, c: Controller, now: int)
    requires PendingOk(a) && a.store.sessions.Has(sid) && run !in a.owner
    requires c !in a.store.aborted && a.store.sessions.values[sid].abortController != Some(c)
    ensures var b := OnPrompt(a, sid, run, c, true, now);
            && b.pending.Has(sid) && b.pending.values[sid].run == run && run !in b.settled
            && b.store.sessions.Has(sid) && b.store.sessions.values[sid].activeRunId == Some(run)
            && c !in b.store.aborted
  {
    var st := Touch(a.store, sid, now);
    assert st.sessions.values[sid].abortController != Some(c) && st.aborted == a.store.aborted;
    assert c !in CancelRun(st, sid, now).aborted;
  }

  // ---------------------------------------------------------------- the shortest runs that show each fault

  lemma {:induction false} RunThen(lim: Limits, a: Agent, es: seq<(Event, int)>, b: Agent, e: Event, now: int)
    requires Run(lim, a, es, b) && Enabled(b, e)
    ensures Run(lim, a, es + [(e, now)], Next(lim, b, e, now))
    decreases |es|
  {
    if es != [] {
      RunThen(lim, Next(lim, a, es[0].0, es[0].1), es[1..], b, e, now);
      assert (es + [(e, now)])[1..] == es[1..] + [(e, now)];
    }
  }

  lemma FirstSession(lim: Limits, sid: Id, key: string) returns (a: Agent)
    requires lim.maxSessions >= 1
    ensures Run(lim, NewAgent, [(CreateSession(sid, key, "/"), 0)], a)
    ensures a == NewAgent.(store := a.store) && a.store.aborted == {} && a.store.sessions.Size() == 1
    ensures a.store.sessions.values == map[sid := Session(key, "/", 0, 0, None, None)]
  {
    var e := CreateSession(sid, key, "/");
    var st := Reap(lim, NewStore, 0);
    assert st.sessions.order == [] && st.sessions.values == map[];
    a := Next(lim, NewAgent, e, 0);
    RunThen(lim, NewAgent, [], NewAgent, e, 0);
    assert [] + [(e, 0)] == [(e, 0)];
  }

  /** A prompt that fits, sent to an open session of an agent reached by es. */
  lemma PromptThen(lim: Limits, es: seq<(Event, int)>, a: Agent, sid: Id, run: Id, c: Controller) returns (b: Agent)
    requires Run(lim, NewAgent, es, a) && a.store.sessions.Has(sid) && run != "" && run !in a.owner
    ensures Run(lim, NewAgent, es + [(Prompt(sid, run, c, true), 0)], b) && b == OnPrompt(a, sid, run, c, true, 0)
    ensures b.store.sessions.values.Keys == a.store.sessions.values.Keys
    ensures b.owner == a.owner[run := sid] && b.settled == a.settled
    ensures b.pending == Set(a.pending, sid, Pending(a.store.sessions.values[sid].sessionKey, run, 0, {}))
    ensures forall k :: k != sid && k in b.store.sessions.values ==>
              b.store.sessions.values[k] == a.store.sessions.values[k]
  {
    hide SetRun, CancelRun, Touch, Set;
    hide Run;
    b := Next(lim, a, Prompt(sid, run, c, true), 0);
    RunThen(lim, NewAgent, es, a, Prompt(sid, run, c, true), 0);
    PromptStore(a.store, sid, run, c);
  }

  lemma PromptStore(st: Store, sid: Id, run: Id, c: Controller)
    requires st.sessions.Has(sid)
    ensures var t := SetRun(CancelRun(Touch(st, sid, 0), sid, 0), sid, run, c, 0);
            t.sessions.values.Keys == st.sessions.values.Keys
            && forall k :: k != sid && k in t.sessions.values ==> t.sessions.values[k] == st.sessions.values[k]
  {
  }

  /** A second prompt on a session loses the first. */
  lemma SecondPromptLosesFirst(lim: Limits, sid: Id, key: string, q: Id, r: Id, c: Controller, d: Controller)
    requires lim.maxSessions >= 1 && q != "" && r != "" && q != r
    ensures exists b :: Run(lim, NewAgent,
                            [(CreateSession(sid, key, "/"), 0), (Prompt(sid, q, c, true), 0),
                             (Prompt(sid, r, d, true), 0)], b)
                        && q in b.owner && !Tracked(b, q) && q !in b.settled
  {
    hide Run, OnPrompt, OnChat;
    var e := (CreateSession(sid, key, "/"), 0);
    var a := FirstSession(lim, sid, key);
    var a1 := PromptThen(lim, [e], a, sid, q, c);
    var b := PromptThen(lim, [e] + [(Prompt(sid, q, c, true), 0)], a1, sid, r, d);
    assert [e] + [(Prompt(sid, q, c, true), 0)] + [(Prompt(sid, r, d, true), 0)] ==
           [e, (Prompt(sid, q, c, true), 0), (Prompt(sid, r, d, true), 0)];
  }

  lemma SecondSession(lim: Limits, a: Agent, es: seq<(Event, int)>, sid: Id, key: string, sid2: Id) returns (b: Agent)
    requires lim.maxSessions >= 2 && lim.idleTtlMs >= 1 && sid != sid2 && Run(lim, NewAgent, es, a)
    requires a == NewAgent.(store := a.store) && a.store.sessions.Size() == 1
    requires a.store.sessions.values == map[sid := Session(key, "/", 0, 0, None, None)]
    ensures Run(lim, NewAgent, es + [(CreateSession(sid2, key, "/"), 0)], b)
    ensures b == NewAgent.(store := b.store)
    ensures b.store.sessions.values == a.store.sessions.values[sid2 := Session(key, "/", 0, 0, None, None)]
  {
    hide Run;
    var e := CreateSession(sid2, key, "/");
    b := Next(lim, a, e, 0);
    RunThen(lim, NewAgent, es, a, e, 0);
    assert Reap(lim, a.store, 0).sessions.values == a.store.sessions.values;
  }

  /** With two sessions under one key, the end of the later prompt is ignored while the earlier one is pending. */
  lemma SharedKeyHidesPrompt(lim: Limits, s: Id, t: Id, key: string, q: Id, r: Id, c: Controller, d: Controller)
    requires lim.maxSessions >= 2 && lim.idleTtlMs >= 1 && s != t && q != "" && r != "" && q != r
    ensures exists b :: Run(lim, NewAgent,
                            [(CreateSession(s, key, "/"), 0), (CreateSession(t, key, "/"), 0),
                             (Prompt(s, q, c, true), 0), (Prompt(t, r, d, true), 0)], b)
                        && Tracked(b, r) && OnChat(b, key, Some(r), Final, 0) == b
  {
    hide Run, OnPrompt, OnChat;
    var e, f := (CreateSession(s, key, "/"), 0), (CreateSession(t, key, "/"), 0);
    var p, p' := (Prompt(s, q, c, true), 0), (Prompt(t, r, d, true), 0);
    var a := FirstSession(lim, s, key);
    var a1 := SecondSession(lim, a, [e], s, key, t);
    var a2 := PromptThen(lim, [e] + [f], a1, s, q, c);
    var b := PromptThen(lim, [e] + [f] + [p], a2, t, r, d);
    assert [e] + [f] + [p] + [p'] == [e, f, p, p'];
    TwoPending(b, s, t, key, q, r);
  }

  lemma TwoPending(b: Agent, s: Id, t: Id, key: string, q: Id, r: Id)
    requires s != t && r in b.owner && b.owner[r] == t && q != r && r != ""
    requires b.pending ==
             Set(Set(Empty<Id, Pending>(), s, Pending(key, q, 0, {})), t, Pending(key, r, 0, {}))
    ensures Tracked(b, r) && OnChat(b, key, Some(r), Final, 0) == b
  {
    var first := Set(Empty<Id, Pending>(), s, Pending(key, q, 0, {}));
    assert first.order == [s] && first.order <= b.pending.order;
    FirstEntry(b, s, q, key, r);
  }

  lemma FirstEntry(b: Agent, s: Id, q: Id, key: string, r: Id)
    requires |b.pending.order| > 0 && b.pending.order[0] == s && b.pending.Has(s)
    requires b.pending.values[s].sessionKey == key && b.pending.values[s].run == q && q != r && r != ""
    ensures OnChat(b, key, Some(r), Final, 0) == b
  {
    hide Finish, OnDelta;
    assert FindPending(b, key) == Some(s);
    assert !Addressed(b, key, Some(r));
  }

  /** A prompt sent while a cancel waits for chat.abort ends cancelled, its run active and never aborted. */
  lemma CancelStrandsPrompt(lim: Limits, sid: Id, key: string, q: Id, c: Controller)
    requires lim.maxSessions >= 1 && q != ""
    ensures exists b :: Run(lim, NewAgent,
                            [(CreateSession(sid, key, "/"), 0), (Event.CancelBegin(sid), 0),
                             (Prompt(sid, q, c, true), 0), (Event.CancelEnd(sid), 0)], b)
                        && q in b.settled && b.settled[q] == Cancelled && c !in b.store.aborted
                        && b.store.sessions.Has(sid) && b.store.sessions.values[sid].activeRunId == Some(q)
  {
    hide Run, OnPrompt, PendingOk, OnCancelEnd, Touch, CancelRun;
    var e := (CreateSession(sid, key, "/"), 0);
    var f, p, g := (Event.CancelBegin(sid), 0), (Prompt(sid, q, c, true), 0), (Event.CancelEnd(sid), 0);
    var a := FirstSession(lim, sid, key);
    var a1 := Next(lim, a, f.0, 0);
    RunThen(lim, NewAgent, [e], a, f.0, 0);
    IdleCancel(lim, a, sid);
    var a2 := PromptThen(lim, [e] + [f], a1, sid, q, c);
    CancelHitsLaterPrompt(lim, a1, sid, q, c, 0);
    RunThen(lim, NewAgent, [e] + [f] + [p], a2, g.0, 0);
    assert [e] + [f] + [p] + [g] == [e, f, p, g];
  }

  lemma IdleCancel(lim: Limits, a: Agent, sid: Id)
    requires a == NewAgent.(store := a.store) && a.store.aborted == {}
    requires a.store.sessions.Has(sid) && a.store.sessions.values[sid].abortController.None?
    ensures var b := Next(lim, a, Event.CancelBegin(sid), 0);
            && PendingOk(b) && b.owner == map[] && b.store.aborted == {} && b.store.sessions.Has(sid)
            && b.store.sessions.values[sid].abortController.None?
  {
  }
}
