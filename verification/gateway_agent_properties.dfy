/** What every interleaving of ACP calls, gateway events, failed requests and disconnects keeps. */
module GatewayAgentProperties {
  import opened JsMaps
  import opened SessionStores
  import opened SessionStoreProperties
  import opened GatewayAgents

  // ---------------------------------------------------------------- streaming a cumulative text

  /** What has been sent after the cumulative texts ts: each contributes what goes beyond the text sent so far. */
  function Emit(ts: seq<Text>): Text {
    if ts == [] then []
    else
      var sent := Emit(ts[..|ts| - 1]);
      var t := ts[|ts| - 1];
      if |t| <= |sent| then sent else sent + t[|sent|..]
  }

  function MaxLength(ts: seq<Text>): nat {
    if ts == [] then 0
    else
      var m := MaxLength(ts[..|ts| - 1]);
      if |ts[|ts| - 1]| <= m then m else |ts[|ts| - 1]|
  }

  /** However the texts relate, the total length sent is the greatest length seen. */
  lemma {:induction false} EmittedLength(ts: seq<Text>)
    ensures |Emit(ts)| == MaxLength(ts)
  {
    if ts != [] {
      EmittedLength(ts[..|ts| - 1]);
    }
  }

  ghost predicate Chain(ts: seq<Text>) {
    forall i, j :: 0 <= i < |ts| && 0 <= j < |ts| ==> ts[i] <= ts[j] || ts[j] <= ts[i]
  }

  /** Texts that extend one another, in any order and with repeats: what was sent is the longest of them. */
  lemma {:induction false} EmittedIsLongest(ts: seq<Text>)
    requires Chain(ts)
    ensures forall t :: t in ts ==> t <= Emit(ts)
    ensures Emit(ts) in [[]] + ts
  {
    if ts != [] {
      var n := |ts| - 1;
      EmittedIsLongest(ts[..n]);
      LongestStep(ts[..n], ts[n]);
      assert ts == ts[..n] + [ts[n]];
    }
  }

  lemma LongestStep(before: seq<Text>, t: Text)
    requires Chain(before + [t])
    requires Emit(before) in [[]] + before && forall u :: u in before ==> u <= Emit(before)
    ensures var ts := before + [t]; Emit(ts) in [[]] + ts && forall u :: u in ts ==> u <= Emit(ts)
  {
    var sent, ts := Emit(before), before + [t];
    assert ts[..|before|] == before && ts[|before|] == t;
    if sent in before {
      var i :| 0 <= i < |before| && before[i] == sent;
      assert ts[i] == sent;
    }
    assert sent <= t || t <= sent;
    if |sent| < |t| {
      assert sent + t[|sent|..] == t;
    }
    assert Emit(ts) == if |sent| < |t| then t else sent;
  }

  // ---------------------------------------------------------------- invariants

  /** Every active run was started for the session that runs it. */
  ghost predicate Owned(st: Store, owner: map<Id, Id>) {
    forall sid :: sid in st.sessions.values ==> RunOwned(sid, st.sessions.values[sid].activeRunId, owner)
  }

  ghost predicate RunOwned(sid: Id, run: Option<Id>, owner: map<Id, Id>) {
    run.Some? ==> run.value in owner && owner[run.value] == sid
  }

  ghost predicate StoreOk(a: Agent) {
    IndexOk(a.store) && Paired(a.store) && Owned(a.store, a.owner)
  }

  /** A pending prompt's run id is not empty, was started for that session, and has not settled. */
  ghost predicate PendingOk(a: Agent) {
    && (forall sid :: sid in a.pending.values ==>
          var run := a.pending.values[sid].run;
          run != "" && run in a.owner && a.owner[run] == sid && run !in a.settled)
    && a.settled.Keys <= a.owner.Keys
    && a.requests <= a.owner.Keys
  }

  /** A session that has both a pending prompt and an active run has them naming the same run. */
  ghost predicate SameRun(a: Agent) {
    forall sid :: sid in a.pending.values && sid in a.store.sessions.values ==>
      var run := a.store.sessions.values[sid].activeRunId;
      run.Some? ==> run.value == a.pending.values[sid].run
  }

  /** What was streamed for every run is what its cumulative texts call for; no tool call starts twice. */
  ghost predicate HistoriesOk(a: Agent) {
    && a.chunks.Keys == a.seen.Keys == a.announced.Keys == a.owner.Keys
    && (forall run :: run in a.chunks ==> a.chunks[run] == Emit(a.seen[run]))
    && (forall run :: run in a.announced ==> CalledOnce(a.announced[run]))
  }

  ghost predicate CalledOnce(notes: seq<ToolNote>) {
    forall i, j :: 0 <= i < j < |notes| && notes[i].Called? ==> notes[i] != notes[j]
  }

  ghost predicate StreamsOk(a: Agent) {
    HistoriesOk(a) && forall sid :: sid in a.pending.values ==> StreamOk(a, a.pending.values[sid])
  }

  ghost predicate StreamOk(a: Agent, p: Pending) {
    && p.run in a.chunks && p.sentTextLength == |a.chunks[p.run]|
    && p.run in a.announced && (forall c :: c in p.toolCalls <==> Called(c) in a.announced[p.run])
  }

  ghost predicate Inv(a: Agent) {
    StoreOk(a) && PendingOk(a) && SameRun(a) && StreamsOk(a)
  }

  // ---------------------------------------------------------------- store operations

  lemma ClearRunOk(st: Store, owner: map<Id, Id>, sid: Id, now: int)
    requires IndexOk(st) && Paired(st) && Owned(st, owner)
    ensures var t := ClearRun(st, sid, now); IndexOk(t) && Paired(t) && Owned(t, owner)
  {
    ClearRunIndex(st, sid, now);
    var t := ClearRun(st, sid, now);
    forall k | k in t.sessions.values
      ensures RunOwned(k, t.sessions.values[k].activeRunId, owner)
    {
      assert RunOwned(k, st.sessions.values[k].activeRunId, owner);
    }
  }

  lemma {:induction false} ClearRunsOk(st: Store, owner: map<Id, Id>, sids: seq<Id>, now: int)
    requires IndexOk(st) && Paired(st) && Owned(st, owner)
    ensures var t := ClearRuns(st, sids, now); IndexOk(t) && Paired(t) && Owned(t, owner)
    decreases |sids|
  {
    if sids != [] {
      ClearRunOk(st, owner, sids[0], now);
      ClearRunsOk(ClearRun(st, sids[0], now), owner, sids[1..], now);
    }
  }

  lemma TouchOk(st: Store, owner: map<Id, Id>, sid: Id, now: int)
    requires IndexOk(st) && Paired(st) && Owned(st, owner)
    ensures var t := Touch(st, sid, now); IndexOk(t) && Paired(t) && Owned(t, owner)
  {
    TouchIndex(st, sid, now);
    var t := Touch(st, sid, now);
    forall k | k in t.sessions.values
      ensures RunOwned(k, t.sessions.values[k].activeRunId, owner)
    {
      assert RunOwned(k, st.sessions.values[k].activeRunId, owner);
    }
  }

  lemma CancelRunOk(st: Store, owner: map<Id, Id>, sid: Id, now: int)
    requires IndexOk(st) && Paired(st) && Owned(st, owner)
    ensures var t := CancelRun(st, sid, now); IndexOk(t) && Paired(t) && Owned(t, owner)
    ensures st.sessions.Has(sid) ==>
              && CancelRun(st, sid, now).sessions.Has(sid)
              && CancelRun(st, sid, now).sessions.values[sid].activeRunId.None?
  {
    ClearRunOk(st, owner, sid, now);
  }

  lemma CreateOk(lim: Limits, st: Store, owner: map<Id, Id>, sid: Id, key: string, cwd: string, now: int)
    requires IndexOk(st) && Paired(st) && Owned(st, owner)
    ensures var t := Create(lim, st, sid, key, cwd, now).store; IndexOk(t) && Paired(t) && Owned(t, owner)
    ensures var t := Create(lim, st, sid, key, cwd, now).store;
            forall k :: k in t.sessions.values && t.sessions.values[k].activeRunId.Some? ==>
              k in st.sessions.values && st.sessions.values[k].activeRunId == t.sessions.values[k].activeRunId
  {
    CreateIndex(lim, st, sid, key, cwd, now);
    ApplyKeepsPaired(lim, st, OpCreate(sid, key, cwd), now);
    var t := Create(lim, st, sid, key, cwd, now).store;
    forall k | k in t.sessions.values && t.sessions.values[k].activeRunId.Some?
      ensures k in st.sessions.values && st.sessions.values[k].activeRunId == t.sessions.values[k].activeRunId
      ensures RunOwned(k, t.sessions.values[k].activeRunId, owner)
    {
      assert RunOwned(k, st.sessions.values[k].activeRunId, owner);
    }
  }

  lemma IndexedRunsAreOwned(st: Store, owner: map<Id, Id>)
    requires IndexOk(st) && Owned(st, owner)
    ensures st.runs.Keys <= owner.Keys
  {
    forall r | r in st.runs
      ensures r in owner
    {
      assert RunOwned(st.runs[r], Some(r), owner);
    }
  }

  lemma SetRunOk(st: Store, owner: map<Id, Id>, sid: Id, run: Id, c: Controller, now: int)
    requires IndexOk(st) && Paired(st) && Owned(st, owner)
    requires st.sessions.Has(sid) && st.sessions.values[sid].activeRunId == None && run != "" && run !in owner
    ensures var t := SetRun(st, sid, run, c, now); IndexOk(t) && Paired(t) && Owned(t, owner[run := sid])
  {
    IndexedRunsAreOwned(st, owner);
    SetRunIndex(st, sid, run, c, now);
    var t := SetRun(st, sid, run, c, now);
    forall k | k in t.sessions.values
      ensures RunOwned(k, t.sessions.values[k].activeRunId, owner[run := sid])
    {
      if k != sid {
        assert RunOwned(k, st.sessions.values[k].activeRunId, owner);
      }
    }
  }

  // ---------------------------------------------------------------- every event keeps the invariant

  lemma {:induction false} RejectAllKeys(settled: map<Id, Settlement>, sids: seq<Id>, pending: map<Id, Pending>, q: Id)
    requires forall k :: k in sids ==> k in pending
    ensures q in RejectAll(settled, sids, pending) <==>
            q in settled || exists k :: k in sids && pending[k].run == q
    ensures q in settled ==> RejectAll(settled, sids, pending)[q] == settled[q]
    ensures q in RejectAll(settled, sids, pending) && q !in settled ==>
              RejectAll(settled, sids, pending)[q] == Rejected
    decreases |sids|
  {
    if sids != [] {
      RejectAllKeys(Settle(settled, pending[sids[0]].run, Rejected), sids[1..], pending, q);
      assert forall k :: k in sids <==> k == sids[0] || k in sids[1..];
    }
  }

  /** The store may change as long as no session gets a run it did not have. */
  lemma ReplaceStoreInv(a: Agent, st: Store)
    requires Inv(a) && IndexOk(st) && Paired(st) && Owned(st, a.owner)
    requires forall k :: k in st.sessions.values && st.sessions.values[k].activeRunId.Some? ==>
      k in a.store.sessions.values && a.store.sessions.values[k].activeRunId == st.sessions.values[k].activeRunId
    ensures Inv(a.(store := st))
  {
    DropPendingStreams(a, a.(store := st));
  }

  lemma TouchCancelInv(a: Agent, sid: Id, now: int)
    requires Inv(a)
    ensures Inv(a.(store := CancelRun(Touch(a.store, sid, now), sid, now)))
  {
    TouchOk(a.store, a.owner, sid, now);
    CancelRunOk(Touch(a.store, sid, now), a.owner, sid, now);
    ReplaceStoreInv(a, CancelRun(Touch(a.store, sid, now), sid, now));
  }

  lemma PromptInv(a: Agent, sid: Id, run: Id, c: Controller, fits: bool, now: int)
    requires Inv(a) && Enabled(a, Prompt(sid, run, c, fits))
    ensures Inv(OnPrompt(a, sid, run, c, fits, now))
  {
    if a.store.sessions.Has(sid) {
      TouchCancelInv(a, sid, now);
      TouchOk(a.store, a.owner, sid, now);
      CancelRunOk(Touch(a.store, sid, now), a.owner, sid, now);
      if fits {
        var a1 := a.(store := CancelRun(Touch(a.store, sid, now), sid, now));
        StartRunInv(a1, sid, a.store.sessions.values[sid].sessionKey, run, c, now);
      }
    }
  }

  lemma StartRunInv(a: Agent, sid: Id, key: string, run: Id, c: Controller, now: int)
    requires Inv(a) && run != "" && run !in a.owner
    requires a.store.sessions.Has(sid) && a.store.sessions.values[sid].activeRunId == None
    ensures Inv(StartRun(a, sid, key, run, c, now))
  {
    SetRunOk(a.store, a.owner, sid, run, c, now);
    StartRunPending(a, sid, key, run, c, now);
    StartRunStreams(a, sid, key, run, c, now);
  }

  lemma StartRunPending(a: Agent, sid: Id, key: string, run: Id, c: Controller, now: int)
    requires PendingOk(a) && SameRun(a) && run != "" && run !in a.owner && a.store.sessions.Has(sid)
    ensures var b := StartRun(a, sid, key, run, c, now); PendingOk(b) && SameRun(b)
  {
  }

  lemma StartRunStreams(a: Agent, sid: Id, key: string, run: Id, c: Controller, now: int)
    requires StreamsOk(a) && PendingOk(a) && run !in a.owner
    ensures StreamsOk(StartRun(a, sid, key, run, c, now))
  {
    StartRunHistories(a, sid, key, run, c, now);
    var b := StartRun(a, sid, key, run, c, now);
    forall k | k in b.pending.values
      ensures StreamOk(b, b.pending.values[k])
    {
      if k != sid {
        assert StreamOk(a, a.pending.values[k]);
        OtherStream(a, b, run, a.pending.values[k]);
      }
    }
  }

  lemma StartRunHistories(a: Agent, sid: Id, key: string, run: Id, c: Controller, now: int)
    requires HistoriesOk(a) && run !in a.owner
    ensures HistoriesOk(StartRun(a, sid, key, run, c, now))
  {
  }

  /** A pending prompt's stream is not affected by what happens to another run. */
  lemma OtherStream(a: Agent, b: Agent, run: Id, p: Pending)
    requires StreamOk(a, p) && p.run != run
    requires p.run in b.chunks && b.chunks[p.run] == a.chunks[p.run]
    requires p.run in b.announced && b.announced[p.run] == a.announced[p.run]
    ensures StreamOk(b, p)
  {
  }

  lemma DropPendingStreams(a: Agent, b: Agent)
    requires StreamsOk(a)
    requires b.chunks == a.chunks && b.seen == a.seen && b.announced == a.announced && b.owner == a.owner
    requires forall k :: k in b.pending.values ==> k in a.pending.values && b.pending.values[k] == a.pending.values[k]
    ensures StreamsOk(b)
  {
    forall k | k in b.pending.values
      ensures StreamOk(b, b.pending.values[k])
    {
      assert StreamOk(a, a.pending.values[k]);
    }
  }

  lemma FinishInv(a: Agent, sid: Id, how: Settlement, now: int)
    requires Inv(a) && a.pending.Has(sid)
    ensures Inv(Finish(a, sid, how, now))
  {
    ClearRunOk(a.store, a.owner, sid, now);
    DropPendingStreams(a, Finish(a, sid, how, now));
  }

  lemma RequestFailedInv(a: Agent, run: Id, now: int)
    requires Inv(a) && Enabled(a, RequestFailed(run))
    ensures Inv(OnRequestFailed(a, run, now))
  {
    ClearRunOk(a.store, a.owner, a.owner[run], now);
    DropPendingStreams(a, OnRequestFailed(a, run, now));
  }

  lemma CancelEndInv(a: Agent, sid: Id)
    requires Inv(a)
    ensures Inv(OnCancelEnd(a, sid))
  {
    DropPendingStreams(a, OnCancelEnd(a, sid));
  }

  lemma DisconnectInv(a: Agent, now: int)
    requires Inv(a)
    ensures Inv(OnDisconnect(a, now))
  {
    var b := OnDisconnect(a, now);
    ClearRunsOk(a.store, a.owner, a.pending.order, now);
    DropPendingStreams(a, b);
    forall q | q in b.settled
      ensures q in a.owner
    {
      RejectAllKeys(a.settled, a.pending.order, a.pending.values, q);
      if q !in a.settled {
        var k :| k in a.pending.order && a.pending.values[k].run == q;
        assert k in a.pending.values;
      }
    }
  }

  lemma DeltaInv(a: Agent, sid: Id, fullText: Text)
    requires Inv(a) && a.pending.Has(sid)
    ensures Inv(OnDelta(a, sid, fullText))
  {
    SamePendingRuns(a, OnDelta(a, sid, fullText));
    DeltaStreams(a, sid, fullText);
  }

  lemma SamePendingRuns(a: Agent, b: Agent)
    requires PendingOk(a) && SameRun(a)
    requires b.store == a.store && b.settled == a.settled && b.owner == a.owner && b.requests == a.requests
    requires b.pending.values.Keys == a.pending.values.Keys
    requires forall k :: k in b.pending.values ==> b.pending.values[k].run == a.pending.values[k].run
    ensures PendingOk(b) && SameRun(b)
  {
  }

  lemma DeltaStreams(a: Agent, sid: Id, fullText: Text)
    requires StreamsOk(a) && PendingOk(a) && a.pending.Has(sid)
    ensures StreamsOk(OnDelta(a, sid, fullText))
  {
    var b := OnDelta(a, sid, fullText);
    var p := a.pending.values[sid];
    assert StreamOk(a, p);
    DeltaEmits(a, sid, fullText);
    assert HistoriesOk(b);
    forall k | k in b.pending.values
      ensures StreamOk(b, b.pending.values[k])
    {
      assert StreamOk(a, a.pending.values[k]);
      if k != sid {
        OtherStream(a, b, p.run, a.pending.values[k]);
      }
    }
  }

  lemma DeltaEmits(a: Agent, sid: Id, fullText: Text)
    requires a.pending.Has(sid)
    requires var p := a.pending.values[sid];
             p.run in a.chunks && p.run in a.seen && StreamOk(a, p) && a.chunks[p.run] == Emit(a.seen[p.run])
    ensures var p := a.pending.values[sid];
            var b := OnDelta(a, sid, fullText);
            p.run in b.chunks && p.run in b.seen && b.chunks[p.run] == Emit(b.seen[p.run])
            && StreamOk(b, b.pending.values[sid])
  {
    var ts := a.seen[a.pending.values[sid].run];
    assert (ts + [fullText])[..|ts|] == ts;
  }

  lemma ToolInv(a: Agent, key: string, id: string, phase: ToolPhase)
    requires Inv(a)
    ensures Inv(OnTool(a, key, id, phase))
  {
    SamePendingRuns(a, OnTool(a, key, id, phase));
    ToolStreams(a, key, id, phase);
  }

  lemma ToolStreams(a: Agent, key: string, id: string, phase: ToolPhase)
    requires StreamsOk(a) && PendingOk(a)
    ensures StreamsOk(OnTool(a, key, id, phase))
  {
    var b := OnTool(a, key, id, phase);
    if b != a {
      var sid := FindPending(a, key).value;
      match phase {
        case ToolStart => StartToolStreams(a, sid, id);
        case ToolResult(failed) => UpdateStreams(a, sid, id, failed);
      }
    }
  }

  lemma UpdateStreams(a: Agent, sid: Id, id: string, failed: bool)
    requires StreamsOk(a) && PendingOk(a) && a.pending.Has(sid)
    ensures StreamsOk(Announce(a, a.pending.values[sid].run, Updated(id, failed)))
  {
    var p := a.pending.values[sid];
    var b := Announce(a, p.run, Updated(id, failed));
    assert StreamOk(a, p);
    assert b.announced[p.run] == a.announced[p.run] + [Updated(id, failed)];
    assert HistoriesOk(b);
    forall k | k in b.pending.values
      ensures StreamOk(b, b.pending.values[k])
    {
      assert StreamOk(a, a.pending.values[k]);
      if k != sid {
        OtherStream(a, b, p.run, a.pending.values[k]);
      }
    }
  }

  lemma StartToolStreams(a: Agent, sid: Id, id: string)
    requires StreamsOk(a) && PendingOk(a) && a.pending.Has(sid) && id !in a.pending.values[sid].toolCalls
    ensures StreamsOk(StartTool(a, sid, id))
  {
    var b := StartTool(a, sid, id);
    var p := a.pending.values[sid];
    assert StreamOk(a, p);
    assert b.announced[p.run] == a.announced[p.run] + [Called(id)];
    assert HistoriesOk(b);
    forall k | k in b.pending.values
      ensures StreamOk(b, b.pending.values[k])
    {
      assert StreamOk(a, a.pending.values[k]);
      if k != sid {
        OtherStream(a, b, p.run, a.pending.values[k]);
      }
    }
  }

  lemma CreateInv(lim: Limits, a: Agent, sid: Id, key: string, cwd: string, now: int)
    requires Inv(a)
    ensures Inv(a.(store := Create(lim, a.store, sid, key, cwd, now).store))
  {
    CreateOk(lim, a.store, a.owner, sid, key, cwd, now);
    ReplaceStoreInv(a, Create(lim, a.store, sid, key, cwd, now).store);
  }

  lemma SetModeInv(a: Agent, sid: Id, now: int)
    requires Inv(a)
    ensures Inv(a.(store := Touch(a.store, sid, now)))
  {
    TouchOk(a.store, a.owner, sid, now);
    ReplaceStoreInv(a, Touch(a.store, sid, now));
  }

  lemma RequestDoneInv(a: Agent, run: Id)
    requires Inv(a)
    ensures Inv(a.(requests := a.requests - {run}))
  {
    DropPendingStreams(a, a.(requests := a.requests - {run}));
  }

  lemma NextInv(lim: Limits, a: Agent, e: Event, now: int)
    requires Inv(a) && Enabled(a, e)
    ensures Inv(Next(lim, a, e, now))
  {
    match e {
      case CreateSession(sid, key, cwd) => CreateInv(lim, a, sid, key, cwd, now);
      case SetMode(sid) => SetModeInv(a, sid, now);
      case Prompt(sid, run, c, fits) => PromptInv(a, sid, run, c, fits, now);
      case RequestDone(run) => RequestDoneInv(a, run);
      case RequestFailed(run) => RequestFailedInv(a, run, now);
      case CancelBegin(sid) => TouchCancelInv(a, sid, now);
      case CancelEnd(sid) => CancelEndInv(a, sid);
      case Chat(key, runId, state) => ChatInv(a, key, runId, state, now);
      case Tool(key, id, phase) => ToolInv(a, key, id, phase);
      case Disconnect => DisconnectInv(a, now);
    }
  }

  lemma ChatInv(a: Agent, key: string, runId: Option<Id>, state: ChatState, now: int)
    requires Inv(a)
    ensures Inv(OnChat(a, key, runId, state, now))
  {
    if Addressed(a, key, runId) {
      var sid := FindPending(a, key).value;
      match state {
        case Delta(t) => DeltaInv(a, sid, t);
        case Final => FinishInv(a, sid, EndTurn, now);
        case Aborted => FinishInv(a, sid, Cancelled, now);
        case Error => FinishInv(a, sid, Refusal, now);
        case OtherState =>
      }
    }
  }

  // ---------------------------------------------------------------- interleavings

  ghost predicate Run(lim: Limits, a: Agent, es: seq<(Event, int)>, b: Agent)
    decreases |es|
  {
    if es == [] then a == b
    else Enabled(a, es[0].0) && Run(lim, Next(lim, a, es[0].0, es[0].1), es[1..], b)
  }

  lemma {:induction false} RunInv(lim: Limits, a: Agent, es: seq<(Event, int)>, b: Agent)
    requires Inv(a) && Run(lim, a, es, b)
    ensures Inv(b)
    decreases |es|
  {
    if es != [] {
      NextInv(lim, a, es[0].0, es[0].1);
      RunInv(lim, Next(lim, a, es[0].0, es[0].1), es[1..], b);
    }
  }

  /** After every interleaving: the run index is the inverse of the sessions' run ids, run ids and controllers
      come in pairs, a session's pending prompt and active run agree, and the text streamed for each prompt is
      as long as the longest cumulative text it received, and equal to it if its texts extend one another. */
  lemma EveryInterleaving(lim: Limits, es: seq<(Event, int)>, a: Agent, run: Id)
    requires Run(lim, NewAgent, es, a)
    ensures IndexOk(a.store) && Paired(a.store) && SameRun(a)
    ensures run in a.owner ==> run in a.chunks && run in a.seen && |a.chunks[run]| == MaxLength(a.seen[run])
    ensures run in a.owner && Chain(a.seen[run]) ==>
              a.chunks[run] in [[]] + a.seen[run] && forall t :: t in a.seen[run] ==> t <= a.chunks[run]
    ensures run in a.owner ==> run in a.announced && CalledOnce(a.announced[run])
  {
    assert Inv(NewAgent);
    RunInv(lim, NewAgent, es, a);
    if run in a.owner {
      EmittedLength(a.seen[run]);
      if Chain(a.seen[run]) {
        EmittedIsLongest(a.seen[run]);
      }
    }
  }

  // ---------------------------------------------------------------- who gets settled, who gets lost

  /** The prompt that started `q` is still registered under its session. */
  predicate Tracked(a: Agent, q: Id) {
    q in a.owner && a.pending.Has(a.owner[q]) && a.pending.values[a.owner[q]].run == q
  }

  predicate Terminal(s: ChatState) {
    s.Final? || s.Aborted? || s.Error?
  }

  function Outcome(s: ChatState): Settlement {
    if s.Final? then EndTurn else if s.Aborted? then Cancelled else Refusal
  }

  /** A terminal chat event that names run r settles at most r's prompt; it does so exactly when r's prompt is
      the first pending one under that session key, and then frees r's session. */
  lemma TerminalChatSettlesOnlyItsRun(a: Agent, key: string, r: Id, state: ChatState, now: int)
    requires Inv(a) && r != "" && key != "" && Terminal(state)
    ensures var b := OnChat(a, key, Some(r), state, now);
            if Tracked(a, r) && FindPending(a, key) == Some(a.owner[r])
            then b.settled == a.settled[r := Outcome(state)] && !Tracked(b, r)
                 && (b.store.sessions.Has(a.owner[r]) ==> Idle(b.store.sessions.values[a.owner[r]]))
            else b == a
  {
    if Addressed(a, key, Some(r)) {
      var sid := FindPending(a, key).value;
      assert sid in a.pending.order && a.pending.values[sid].run == r;
    }
  }

  /** Sessions can share a key. Then a terminal event for the later prompt is ignored while the earlier one is
      pending: the later prompt stays pending. */
  lemma SharedKeyHidesLaterPrompt(a: Agent, key: string, i: nat, j: nat, state: ChatState, now: int)
    requires Inv(a) && Terminal(state) && i < j < |a.pending.order|
    requires a.pending.values[a.pending.order[i]].sessionKey == key
    requires a.pending.values[a.pending.order[j]].sessionKey == key
    ensures var r := a.pending.values[a.pending.order[j]].run;
            OnChat(a, key, Some(r), state, now) == a
  {
    var found := FindPending(a, key);
    FirstIsEarliest(a.pending.order, a.pending.values, key, i);
    var sid := a.pending.order[j];
    assert a.owner[a.pending.values[sid].run] == sid;
  }

  lemma {:induction false} FirstIsEarliest(order: seq<Id>, pending: map<Id, Pending>, key: string, i: nat)
    requires forall k :: k in order ==> k in pending
    requires i < |order| && pending[order[i]].sessionKey == key
    ensures exists m :: 0 <= m <= i && FirstWithKey(order, pending, key) == Some(order[m])
  {
    if pending[order[0]].sessionKey != key {
      FirstIsEarliest(order[1..], pending, key, i - 1);
      var m :| 0 <= m <= i - 1 && FirstWithKey(order[1..], pending, key) == Some(order[1..][m]);
      assert order[1..][m] == order[m + 1];
    }
  }

  /** The two events that lose a prompt: a second prompt on its session, and the failure of another run's
      request on its session. */
  predicate Loses(a: Agent, e: Event, q: Id)
    requires q in a.owner
  {
    match e
    case Prompt(sid, _, _, fits) => fits && a.store.sessions.Has(sid) && sid == a.owner[q]
    case RequestFailed(run) => run != q && run in a.owner && a.owner[run] == a.owner[q]
    case _ => false
  }

  /** A registered prompt stops being registered without settling exactly on those two events. */
  lemma LostExactlyWhen(lim: Limits, a: Agent, e: Event, now: int, q: Id)
    requires Inv(a) && Enabled(a, e) && Tracked(a, q)
    ensures var b := Next(lim, a, e, now);
            !Tracked(b, q) && q !in b.settled <==> Loses(a, e, q)
  {
    match e {
      case Disconnect => DisconnectSettles(a, now, q);
      case Chat(key, runId, state) => ChatLosesNothing(a, key, runId, state, now, q);
      case Prompt(sid, run, c, fits) => PromptLoses(a, sid, run, c, fits, now, q);
      case Tool(key, id, phase) => ToolLosesNothing(a, key, id, phase, q);
      case _ =>
    }
  }

  lemma PromptLoses(a: Agent, sid: Id, run: Id, c: Controller, fits: bool, now: int, q: Id)
    requires PendingOk(a) && Enabled(a, Prompt(sid, run, c, fits)) && Tracked(a, q)
    ensures var b := OnPrompt(a, sid, run, c, fits, now);
            !Tracked(b, q) && q !in b.settled <==> Loses(a, Prompt(sid, run, c, fits), q)
  {
  }

  lemma ToolLosesNothing(a: Agent, key: string, id: string, phase: ToolPhase, q: Id)
    requires Tracked(a, q)
    ensures Tracked(OnTool(a, key, id, phase), q)
  {
  }

  /** A disconnect settles exactly the registered prompts. */
  lemma DisconnectSettles(a: Agent, now: int, q: Id)
    requires Inv(a)
    ensures var b := OnDisconnect(a, now);
            !Tracked(b, q) && (q in b.settled <==> q in a.settled || Tracked(a, q))
  {
    RejectAllKeys(a.settled, a.pending.order, a.pending.values, q);
    assert forall k :: k in a.pending.order <==> k in a.pending.values;
  }

  lemma ChatLosesNothing(a: Agent, key: string, runId: Option<Id>, state: ChatState, now: int, q: Id)
    requires Inv(a) && Tracked(a, q)
    ensures var b := OnChat(a, key, runId, state, now); Tracked(b, q) || q in b.settled
  {
  }

  /** A lost prompt stays lost: nothing but the failure of its own request ever settles it. */
  lemma LostStaysLost(lim: Limits, a: Agent, e: Event, now: int, q: Id)
    requires Inv(a) && Enabled(a, e) && q in a.owner && !Tracked(a, q) && q !in a.settled
    ensures var b := Next(lim, a, e, now);
            !Tracked(b, q) && (q in b.settled <==> e == RequestFailed(q))
  {
    hide OnChat, OnDisconnect, OnCancelEnd, OnTool, Create, CancelRun, Touch, ClearRun, SetRun;
    match e {
      case Disconnect => DisconnectSettles(a, now, q);
      case Chat(key, runId, state) => ChatKeepsLost(a, key, runId, state, now, q);
      case CancelEnd(sid) => CancelEndKeepsLost(a, sid, q);
      case Tool(key, id, phase) => ToolKeepsLost(a, key, id, phase, q);
      case _ =>
    }
  }

  lemma ToolKeepsLost(a: Agent, key: string, id: string, phase: ToolPhase, q: Id)
    requires q in a.owner && !Tracked(a, q) && q !in a.settled
    ensures var b := OnTool(a, key, id, phase); !Tracked(b, q) && q !in b.settled
  {
  }

  lemma CancelEndKeepsLost(a: Agent, sid: Id, q: Id)
    requires Inv(a) && q in a.owner && !Tracked(a, q) && q !in a.settled
    ensures var b := OnCancelEnd(a, sid); !Tracked(b, q) && q !in b.settled
  {
  }

  lemma ChatKeepsLost(a: Agent, key: string, runId: Option<Id>, state: ChatState, now: int, q: Id)
    requires Inv(a) && q in a.owner && !Tracked(a, q) && q !in a.settled
    ensures var b := OnChat(a, key, runId, state, now); !Tracked(b, q) && q !in b.settled
  {
    if Addressed(a, key, runId) {
      var sid := FindPending(a, key).value;
      assert sid in a.pending.order && sid in a.pending.values;
    }
  }

  ghost predicate LosesNothing(lim: Limits, a: Agent, es: seq<(Event, int)>)
    decreases |es|
  {
    es != [] && Enabled(a, es[0].0) ==>
      && (forall q :: q in a.owner && Tracked(a, q) ==> !Loses(a, es[0].0, q))
      && LosesNothing(lim, Next(lim, a, es[0].0, es[0].1), es[1..])
  }

  ghost predicate AllAccounted(a: Agent) {
    forall q :: q in a.owner ==> Tracked(a, q) || q in a.settled
  }

  /** In an interleaving without those two events, every prompt ever started is settled or still registered. */
  lemma {:induction false} NoPromptIsLost(lim: Limits, a: Agent, es: seq<(Event, int)>, b: Agent)
    requires Inv(a) && AllAccounted(a) && Run(lim, a, es, b) && LosesNothing(lim, a, es)
    ensures AllAccounted(b)
    decreases |es|
  {
    if es != [] {
      var e, now := es[0].0, es[0].1;
      var c := Next(lim, a, e, now);
      NextInv(lim, a, e, now);
      AccountedStep(lim, a, e, now);
      NoPromptIsLost(lim, c, es[1..], b);
    }
  }

  lemma AccountedStep(lim: Limits, a: Agent, e: Event, now: int)
    requires Inv(a) && AllAccounted(a) && Enabled(a, e)
    requires forall q :: q in a.owner && Tracked(a, q) ==> !Loses(a, e, q)
    ensures AllAccounted(Next(lim, a, e, now))
  {
    var c := Next(lim, a, e, now);
    forall q | q in c.owner
      ensures Tracked(c, q) || q in c.settled
    {
      if q !in a.owner {
        NewPromptIsTracked(lim, a, e, now, q);
      } else if q in a.settled {
        StaysSettled(lim, a, e, now, q);
      } else {
        LostExactlyWhen(lim, a, e, now, q);
      }
    }
  }

  lemma NewPromptIsTracked(lim: Limits, a: Agent, e: Event, now: int, q: Id)
    requires Enabled(a, e) && q !in a.owner && q in Next(lim, a, e, now).owner
    ensures Tracked(Next(lim, a, e, now), q)
  {
    hide OnPrompt, Tracked, Touch, CancelRun, Create, ClearRun, ClearRuns, RejectAll, FirstWithKey;
    match e {
      case Prompt(sid, run, c, fits) => PromptIsTracked(a, sid, run, c, fits, now, q);
      case _ =>
    }
  }

  lemma PromptIsTracked(a: Agent, sid: Id, run: Id, c: Controller, fits: bool, now: int, q: Id)
    requires Enabled(a, Prompt(sid, run, c, fits)) && q !in a.owner && q in OnPrompt(a, sid, run, c, fits, now).owner
    ensures Tracked(OnPrompt(a, sid, run, c, fits, now), q)
  {
    hide CancelRun, SetRun, Touch;
  }

  lemma StaysSettled(lim: Limits, a: Agent, e: Event, now: int, q: Id)
    requires Enabled(a, e) && q in a.settled
    ensures var b := Next(lim, a, e, now); q in b.settled && b.settled[q] == a.settled[q]
  {
    match e {
      case Disconnect => RejectAllKeys(a.settled, a.pending.order, a.pending.values, q);
      case Chat(key, runId, state) => ChatStaysSettled(a, key, runId, state, now, q);
      case _ =>
    }
  }

  lemma ChatStaysSettled(a: Agent, key: string, runId: Option<Id>, state: ChatState, now: int, q: Id)
    requires q in a.settled
    ensures var b := OnChat(a, key, runId, state, now); q in b.settled && b.settled[q] == a.settled[q]
  {
  }
}
