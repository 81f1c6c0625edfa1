/** How each prompt's promise settles and what its client is sent, told by the events of an interleaving. */
module GatewayAgentSettlements {
  import opened JsMaps
  import opened SessionStores
  import opened SessionStoreProperties
  import opened GatewayAgents
  import opened GatewayAgentProperties
  import opened GatewayAgentFaults

  // ---------------------------------------------------------------- how a prompt settles

  /** The prompt of run q is the first pending one under the key, and the event names no other run. */
  predicate Reaches(a: Agent, key: string, runId: Option<Id>, q: Id) {
    && key != "" && FindPending(a, key).Some? && a.pending.values[FindPending(a, key).value].run == q
    && (runId.None? || runId.value == "" || runId.value == q)
  }

  /** What the event settles q's prompt with, if anything. */
  function Verdict(a: Agent, e: Event, q: Id): Option<Settlement> {
    match e
    case RequestFailed(run) => if run == q then Some(Rejected) else None
    case CancelEnd(sid) => if Tracked(a, q) && a.owner[q] == sid then Some(Cancelled) else None
    case Chat(key, runId, state) =>
      if Reaches(a, key, runId, q) && Terminal(state) then Some(Outcome(state)) else None
    case Disconnect => if Tracked(a, q) then Some(Rejected) else None
    case _ => None
  }

  /** Every event: a prompt that has not settled yet settles exactly when the event says so and with what it says; one
      that has settled keeps its settlement. */
  lemma SettlesExactly(lim: Limits, a: Agent, e: Event, now: int, q: Id)
    requires Inv(a) && Enabled(a, e)
    ensures var b := Next(lim, a, e, now);
            if q in a.settled then q in b.settled && b.settled[q] == a.settled[q]
            else if Verdict(a, e, q).Some? then q in b.settled && b.settled[q] == Verdict(a, e, q).value
            else q !in b.settled
  {
    if q in a.settled {
      StaysSettled(lim, a, e, now, q);
    } else {
      match e {
        case Disconnect => DisconnectVerdict(a, now, q);
        case Chat(key, runId, state) => ChatVerdict(a, key, runId, state, now, q);
        case CancelEnd(sid) => CancelVerdict(a, sid, q);
        case Tool(key, id, phase) => ToolVerdict(a, key, id, phase);
        case _ => OtherVerdict(lim, a, e, now, q);
      }
    }
  }

  lemma OtherVerdict(lim: Limits, a: Agent, e: Event, now: int, q: Id)
    requires Enabled(a, e) && q !in a.settled
    requires !e.Disconnect? && !e.Chat? && !e.CancelEnd? && !e.Tool?
    ensures var b := Next(lim, a, e, now);
            if Verdict(a, e, q).Some? then q in b.settled && b.settled[q] == Verdict(a, e, q).value
            else q !in b.settled
  {
    hide Create, Touch, CancelRun, SetRun, ClearRun, Tracked, FindPending;
  }

  lemma ToolVerdict(a: Agent, key: string, id: string, phase: ToolPhase)
    ensures OnTool(a, key, id, phase).settled == a.settled
  {
  }

  lemma DisconnectVerdict(a: Agent, now: int, q: Id)
    requires Inv(a) && q !in a.settled
    ensures var b := OnDisconnect(a, now);
            if Tracked(a, q) then q in b.settled && b.settled[q] == Rejected else q !in b.settled
  {
    DisconnectSettles(a, now, q);
    RejectAllKeys(a.settled, a.pending.order, a.pending.values, q);
  }

  lemma CancelVerdict(a: Agent, sid: Id, q: Id)
    requires PendingOk(a) && q !in a.settled
    ensures var b := OnCancelEnd(a, sid);
            if Tracked(a, q) && a.owner[q] == sid then q in b.settled && b.settled[q] == Cancelled
            else q !in b.settled
  {
  }

  lemma ChatVerdict(a: Agent, key: string, runId: Option<Id>, state: ChatState, now: int, q: Id)
    requires PendingOk(a) && q !in a.settled
    ensures var b := OnChat(a, key, runId, state, now);
            if Reaches(a, key, runId, q) && Terminal(state) then q in b.settled && b.settled[q] == Outcome(state)
            else q !in b.settled
  {
    hide ClearRun, FirstWithKey, Emit;
  }

  /** Over whole interleavings: a settlement is what the first event with a verdict for the prompt said. */
  function FirstVerdict(lim: Limits, a: Agent, es: seq<(Event, int)>, q: Id): Option<Settlement>
    decreases |es|
  {
    if es == [] || !Enabled(a, es[0].0) then None
    else if Verdict(a, es[0].0, q).Some? then Verdict(a, es[0].0, q)
    else FirstVerdict(lim, Next(lim, a, es[0].0, es[0].1), es[1..], q)
  }

  lemma {:induction false} SettledOnce(lim: Limits, a: Agent, es: seq<(Event, int)>, b: Agent, q: Id)
    requires Inv(a) && Run(lim, a, es, b)
    ensures if q in a.settled then q in b.settled && b.settled[q] == a.settled[q]
            else if FirstVerdict(lim, a, es, q).Some?
            then q in b.settled && b.settled[q] == FirstVerdict(lim, a, es, q).value
            else q !in b.settled
    decreases |es|
  {
    hide Inv, Next, Enabled, Verdict;
    if es != [] {
      NextInv(lim, a, es[0].0, es[0].1);
      SettlesExactly(lim, a, es[0].0, es[0].1, q);
      SettledOnce(lim, Next(lim, a, es[0].0, es[0].1), es[1..], b, q);
    }
  }

  /** Every interleaving from a new agent: each prompt has the settlement of the first event that settles it. */
  lemma EverySettlement(lim: Limits, es: seq<(Event, int)>, b: Agent, q: Id)
    requires Run(lim, NewAgent, es, b)
    ensures q in b.settled <==> FirstVerdict(lim, NewAgent, es, q).Some?
    ensures q in b.settled ==> b.settled[q] == FirstVerdict(lim, NewAgent, es, q).value
  {
    hide Run, FirstVerdict;
    assert Inv(NewAgent);
    SettledOnce(lim, NewAgent, es, b, q);
  }

  // ---------------------------------------------------------------- what the client is sent

  /** The cumulative texts that an event delivers to q's prompt. */
  function TextsOf(a: Agent, e: Event, q: Id): seq<Text> {
    if e.Chat? && e.state.Delta? && Reaches(a, e.key, e.runId, q) then [e.state.fullText] else []
  }

  /** What an event asks the agent to tell q's client of a tool call. */
  function NotesOf(a: Agent, e: Event, q: Id): seq<ToolNote> {
    if e.Tool? && e.toolCallId != "" && Reaches(a, e.key, None, q) then
      match e.phase
      case ToolStart => [Called(e.toolCallId)]
      case ToolResult(failed) => [Updated(e.toolCallId, failed)]
      case OtherPhase => []
    else []
  }

  function Delivered(lim: Limits, a: Agent, es: seq<(Event, int)>, q: Id): seq<Text>
    decreases |es|
  {
    if es == [] || !Enabled(a, es[0].0) then []
    else TextsOf(a, es[0].0, q) + Delivered(lim, Next(lim, a, es[0].0, es[0].1), es[1..], q)
  }

  function ToolReports(lim: Limits, a: Agent, es: seq<(Event, int)>, q: Id): seq<ToolNote>
    decreases |es|
  {
    if es == [] || !Enabled(a, es[0].0) then []
    else NotesOf(a, es[0].0, q) + ToolReports(lim, Next(lim, a, es[0].0, es[0].1), es[1..], q)
  }

  /** `before`, then `notes` without the repeated starts. */
  function Announcing(before: seq<ToolNote>, notes: seq<ToolNote>): seq<ToolNote>
    decreases |notes|
  {
    if notes == [] then before
    else Announcing(if notes[0].Called? && notes[0] in before then before else before + [notes[0]], notes[1..])
  }

  lemma StepDelivers(lim: Limits, a: Agent, e: Event, now: int, q: Id)
    requires Inv(a) && Enabled(a, e)
    ensures var b := Next(lim, a, e, now); Lookup(b.seen, q) == Lookup(a.seen, q) + TextsOf(a, e, q)
    ensures var b := Next(lim, a, e, now);
            Lookup(b.announced, q) == Announcing(Lookup(a.announced, q), NotesOf(a, e, q))
  {
    match e {
      case Chat(key, runId, state) => ChatDelivers(a, key, runId, state, now, q);
      case Tool(key, id, phase) => ToolDelivers(a, key, id, phase, q);
      case Prompt(sid, run, c, fits) => PromptDelivers(a, sid, run, c, fits, now, q);
      case _ => SilentDelivers(lim, a, e, now, q);
    }
  }

  lemma SilentDelivers(lim: Limits, a: Agent, e: Event, now: int, q: Id)
    requires Enabled(a, e) && !e.Chat? && !e.Tool? && !e.Prompt?
    ensures Next(lim, a, e, now).seen == a.seen && Next(lim, a, e, now).announced == a.announced
  {
  }

  lemma PromptDelivers(a: Agent, sid: Id, run: Id, c: Controller, fits: bool, now: int, q: Id)
    requires HistoriesOk(a) && Enabled(a, Prompt(sid, run, c, fits))
    ensures var b := OnPrompt(a, sid, run, c, fits, now);
            Lookup(b.seen, q) == Lookup(a.seen, q) && Lookup(b.announced, q) == Lookup(a.announced, q)
  {
    hide CancelRun, SetRun, Touch, Emit, CalledOnce;
  }

  lemma ChatDelivers(a: Agent, key: string, runId: Option<Id>, state: ChatState, now: int, q: Id)
    requires Inv(a)
    ensures var b := OnChat(a, key, runId, state, now);
            Lookup(b.seen, q) == Lookup(a.seen, q) + TextsOf(a, Chat(key, runId, state), q)
            && b.announced == a.announced
  {
    hide Inv, ClearRun, FirstWithKey, Settle, Outcome, Emit, Remove, Set;
  }

  lemma ToolDelivers(a: Agent, key: string, id: string, phase: ToolPhase, q: Id)
    requires Inv(a)
    ensures var b := OnTool(a, key, id, phase);
            Lookup(b.announced, q) == Announcing(Lookup(a.announced, q), NotesOf(a, Tool(key, id, phase), q))
            && b.seen == a.seen
  {
    hide FirstWithKey, Emit, StoreOk, SameRun;
    var found := FindPending(a, key);
    if found.Some? {
      var p := a.pending.values[found.value];
      assert StreamOk(a, p);
    }
  }

  lemma {:induction false} AnnouncingMore(before: seq<ToolNote>, xs: seq<ToolNote>, ys: seq<ToolNote>)
    ensures Announcing(before, xs + ys) == Announcing(Announcing(before, xs), ys)
    decreases |xs|
  {
    if xs == [] {
      assert xs + ys == ys;
    } else {
      assert (xs + ys)[1..] == xs[1..] + ys;
      AnnouncingMore(if xs[0].Called? && xs[0] in before then before else before + [xs[0]], xs[1..], ys);
    }
  }

  lemma {:induction false} RunDelivers(lim: Limits, a: Agent, es: seq<(Event, int)>, b: Agent, q: Id)
    requires Inv(a) && Run(lim, a, es, b)
    ensures Lookup(b.seen, q) == Lookup(a.seen, q) + Delivered(lim, a, es, q)
    ensures Lookup(b.announced, q) == Announcing(Lookup(a.announced, q), ToolReports(lim, a, es, q))
    decreases |es|
  {
    hide Inv, Next, Enabled, TextsOf, NotesOf, Lookup, Announcing;
    if es == [] {
      AnnouncingNothing(Lookup(a.announced, q));
    } else {
      var c := Next(lim, a, es[0].0, es[0].1);
      NextInv(lim, a, es[0].0, es[0].1);
      StepDelivers(lim, a, es[0].0, es[0].1, q);
      RunDelivers(lim, c, es[1..], b, q);
      AnnouncingMore(Lookup(a.announced, q), NotesOf(a, es[0].0, q), ToolReports(lim, c, es[1..], q));
    }
  }

  lemma AnnouncingNothing(before: seq<ToolNote>)
    ensures Announcing(before, []) == before
  {
  }

  /** Every interleaving: the text streamed to a prompt's client is what the cumulative texts that reached the prompt
      call for, and its tool notes are those of the tool events that reached it, without repeated starts. */
  lemma EveryDelivery(lim: Limits, es: seq<(Event, int)>, b: Agent, q: Id)
    requires Run(lim, NewAgent, es, b) && q in b.owner
    ensures q in b.chunks && b.chunks[q] == Emit(Delivered(lim, NewAgent, es, q))
    ensures q in b.announced && b.announced[q] == Announcing([], ToolReports(lim, NewAgent, es, q))
  {
    hide Run, Emit, Announcing, Delivered, ToolReports;
    assert Inv(NewAgent);
    RunInv(lim, NewAgent, es, b);
    RunDelivers(lim, NewAgent, es, b, q);
    assert [] + Delivered(lim, NewAgent, es, q) == Delivered(lim, NewAgent, es, q);
  }

  // ---------------------------------------------------------------- which sessions are busy, and what is aborted

  /** The event frees session k: a cancel or a new prompt finds a controller in it, the request of one of its runs
      fails, its prompt ends, or the gateway disconnects while it has a prompt. */
  predicate Frees(a: Agent, e: Event, k: Id) {
    match e
    case Prompt(sid, _, _, _) => sid == k && Cancellable(a.store, k)
    case CancelBegin(sid) => sid == k && Cancellable(a.store, k)
    case RequestFailed(run) => run in a.owner && a.owner[run] == k
    case Chat(key, runId, state) =>
      Terminal(state) && Addressed(a, key, runId) && FindPending(a, key) == Some(k)
    case Disconnect => a.pending.Has(k)
    case _ => false
  }

  function RunIn(st: Store, k: Id): Option<Id> {
    if st.sessions.Has(k) then st.sessions.values[k].activeRunId else None
  }

  /** Every event: a session is busy with a new prompt's run, or free if the event frees it, or as busy as before. */
  lemma BusyExactly(lim: Limits, a: Agent, e: Event, now: int, k: Id)
    requires Inv(a) && Enabled(a, e)
    ensures RunIn(Next(lim, a, e, now).store, k) ==
            if e.Prompt? && e.fits && e.sid == k && a.store.sessions.Has(k) then Some(e.run)
            else if Frees(a, e, k) then None
            else RunIn(a.store, k)
  {
    match e {
      case CreateSession(sid, key, cwd) => CreateKeepsRun(lim, a.store, sid, key, cwd, now, k);
      case Chat(key, runId, state) => ChatBusy(a, key, runId, state, now, k);
      case Disconnect => DisconnectBusy(a, now, k);
      case Prompt(sid, run, c, fits) => PromptBusy(a, sid, run, c, fits, now, k);
      case Tool(key, id, phase) => ToolStore(a, key, id, phase);
      case _ => OtherBusy(lim, a, e, now, k);
    }
  }

  lemma OtherBusy(lim: Limits, a: Agent, e: Event, now: int, k: Id)
    requires Inv(a) && Enabled(a, e)
    requires e.SetMode? || e.RequestDone? || e.RequestFailed? || e.CancelBegin? || e.CancelEnd?
    ensures RunIn(Next(lim, a, e, now).store, k) == if Frees(a, e, k) then None else RunIn(a.store, k)
  {
    hide Inv, RunIn, Touch, CancelRun, ClearRun, Cancellable;
    match e {
      case SetMode(sid) => TouchRun(a.store, sid, now, k);
      case RequestFailed(run) => ClearedRun(a.store, a.owner[run], now, k);
      case CancelBegin(sid) =>
        TouchRun(a.store, sid, now, k);
        CancelledRun(Touch(a.store, sid, now), sid, now, k);
      case _ =>
    }
  }

  lemma TouchRun(st: Store, sid: Id, now: int, k: Id)
    ensures RunIn(Touch(st, sid, now), k) == RunIn(st, k)
    ensures Cancellable(Touch(st, sid, now), k) == Cancellable(st, k)
  {
  }

  lemma ClearedRun(st: Store, sid: Id, now: int, k: Id)
    ensures RunIn(ClearRun(st, sid, now), k) == if sid == k then None else RunIn(st, k)
  {
  }

  lemma CancelledRun(st: Store, sid: Id, now: int, k: Id)
    ensures RunIn(CancelRun(st, sid, now), k) == if sid == k && Cancellable(st, k) then None else RunIn(st, k)
  {
  }

  lemma ToolStore(a: Agent, key: string, id: string, phase: ToolPhase)
    ensures OnTool(a, key, id, phase).store == a.store
  {
  }

  lemma CreateKeepsRun(lim: Limits, st: Store, sid: Id, key: string, cwd: string, now: int, k: Id)
    requires IndexOk(st) && Paired(st)
    ensures RunIn(Create(lim, st, sid, key, cwd, now).store, k) == RunIn(st, k)
  {
    hide Create, IndexOk, Idle;
    var r := Create(lim, st, sid, key, cwd, now);
    CreateTouches(lim, st, sid, key, cwd, now, k);
    if k == sid {
      CreatedRun(lim, st, sid, key, cwd, now);
    } else if st.sessions.Has(k) && RunIn(st, k).Some? {
      BusyIsNotIdle(st, k);
      CreateKeepsActiveSessions(lim, st, sid, key, cwd, now, k);
    }
  }

  lemma BusyIsNotIdle(st: Store, k: Id)
    requires Paired(st) && st.sessions.Has(k) && st.sessions.values[k].activeRunId.Some?
    ensures !Idle(st.sessions.values[k])
  {
    assert PairedSession(st.sessions.values[k]);
  }

  lemma CreatedRun(lim: Limits, st: Store, sid: Id, key: string, cwd: string, now: int)
    ensures RunIn(Create(lim, st, sid, key, cwd, now).store, sid) == RunIn(st, sid)
  {
  }

  lemma ChatBusy(a: Agent, key: string, runId: Option<Id>, state: ChatState, now: int, k: Id)
    ensures RunIn(OnChat(a, key, runId, state, now).store, k)
         == if Frees(a, Chat(key, runId, state), k) then None else RunIn(a.store, k)
  {
    hide RunIn, ClearRun, Settle, FirstWithKey, Lookup;
    if Addressed(a, key, runId) {
      ClearedRun(a.store, FindPending(a, key).value, now, k);
    }
  }

  lemma PromptBusy(a: Agent, sid: Id, run: Id, c: Controller, fits: bool, now: int, k: Id)
    ensures RunIn(OnPrompt(a, sid, run, c, fits, now).store, k)
         == if fits && sid == k && a.store.sessions.Has(k) then Some(run)
            else if Frees(a, Prompt(sid, run, c, fits), k) then None
            else RunIn(a.store, k)
  {
    hide RunIn, Touch, CancelRun, SetRun, Cancellable;
    var st := CancelRun(Touch(a.store, sid, now), sid, now);
    TouchRun(a.store, sid, now, k);
    CancelledRun(Touch(a.store, sid, now), sid, now, k);
    SetRunIn(st, sid, run, c, now, k);
    KeepsSession(a.store, sid, now);
  }

  lemma SetRunIn(st: Store, sid: Id, run: Id, c: Controller, now: int, k: Id)
    ensures RunIn(SetRun(st, sid, run, c, now), k) == if sid == k && st.sessions.Has(k) then Some(run) else RunIn(st, k)
  {
  }

  lemma KeepsSession(st: Store, sid: Id, now: int)
    ensures CancelRun(Touch(st, sid, now), sid, now).sessions.Has(sid) <==> st.sessions.Has(sid)
    ensures !st.sessions.Has(sid) ==> !Cancellable(st, sid)
  {
  }

  lemma DisconnectBusy(a: Agent, now: int, k: Id)
    requires Inv(a)
    ensures RunIn(OnDisconnect(a, now).store, k) == if a.pending.Has(k) then None else RunIn(a.store, k)
  {
    if k in a.store.sessions.values {
      ClearRunsClear(a.store, a.pending.order, now, k);
    }
    ClearRunsKeys(a.store, a.pending.order, now);
    assert k in a.pending.order <==> k in a.pending.values;
  }

  /** Every event: a controller is aborted exactly by a cancel of, or a new prompt for, the session that holds it. */
  lemma AbortsExactly(lim: Limits, a: Agent, e: Event, now: int, c: Controller)
    requires Inv(a) && Enabled(a, e)
    ensures c in Next(lim, a, e, now).store.aborted <==>
            || c in a.store.aborted
            || (&& (e.CancelBegin? || e.Prompt?) && a.store.sessions.Has(e.sid)
                && a.store.sessions.values[e.sid].abortController == Some(c))
  {
    match e {
      case CreateSession(sid, key, cwd) => CreateAbortsNothing(lim, a.store, sid, key, cwd, now);
      case Chat(key, runId, state) => ChatAbortsNothing(a, key, runId, state, now);
      case Disconnect => ClearRunsAbortNothing(a.store, a.pending.order, now);
      case Prompt(sid, run, d, fits) => PromptAborts(a, sid, run, d, fits, now, c);
      case Tool(key, id, phase) => ToolStore(a, key, id, phase);
      case _ => OtherAborts(lim, a, e, now, c);
    }
  }

  lemma OtherAborts(lim: Limits, a: Agent, e: Event, now: int, c: Controller)
    requires Enabled(a, e)
    requires e.SetMode? || e.RequestDone? || e.RequestFailed? || e.CancelBegin? || e.CancelEnd?
    ensures c in Next(lim, a, e, now).store.aborted <==>
            || c in a.store.aborted
            || (e.CancelBegin? && a.store.sessions.Has(e.sid)
                && a.store.sessions.values[e.sid].abortController == Some(c))
  {
  }

  lemma PromptAborts(a: Agent, sid: Id, run: Id, d: Controller, fits: bool, now: int, c: Controller)
    ensures c in OnPrompt(a, sid, run, d, fits, now).store.aborted <==>
            c in a.store.aborted
            || (a.store.sessions.Has(sid) && a.store.sessions.values[sid].abortController == Some(c))
  {
  }

  lemma ChatAbortsNothing(a: Agent, key: string, runId: Option<Id>, state: ChatState, now: int)
    ensures OnChat(a, key, runId, state, now).store.aborted == a.store.aborted
  {
  }

  lemma CreateAbortsNothing(lim: Limits, st: Store, sid: Id, key: string, cwd: string, now: int)
    ensures Create(lim, st, sid, key, cwd, now).store.aborted == st.aborted
  {
    EvictionPicksLru(Reap(lim, st, now));
  }

  lemma {:induction false} ClearRunsAbortNothing(st: Store, sids: seq<Id>, now: int)
    ensures ClearRuns(st, sids, now).aborted == st.aborted
    decreases |sids|
  {
    if sids != [] {
      ClearRunsAbortNothing(ClearRun(st, sids[0], now), sids[1..], now);
    }
  }
}
