/** The ACP agent of src/acp/translator.ts on top of the session store. An async method is cut at its awaits:
    each synchronous stretch is one event, so a sequence of events is an interleaving of calls. */
module GatewayAgents {
  import opened JsMaps
  import opened SessionStores

  /** UTF-16 code units of a message text. */
  type Text = seq<bv16>

  datatype Pending = Pending(sessionKey: string, run: Id, sentTextLength: nat, toolCalls: set<string>)

  datatype Settlement = EndTurn | Cancelled | Refusal | Rejected

  datatype ChatState = Delta(fullText: Text) | Final | Aborted | Error | OtherState

  datatype ToolPhase = ToolStart | ToolResult(failed: bool) | OtherPhase

  /** What the client is told of tool calls: a call has started, or how it ended. */
  datatype ToolNote = Called(id: string) | Updated(id: string, failed: bool)

  /** `settled`, `chunks` and `announced` are what the client sees of each prompt: how its promise settled, the
      text streamed to it, and what was announced of its tool calls. `owner` maps each run ever started to its
      session, `requests` are the runs whose chat.send request is open, and `seen` lists the cumulative texts
      the gateway has delivered for a run. */
  datatype Agent = Agent(
    store: Store,
    pending: JsMap<Id, Pending>,
    settled: map<Id, Settlement>,
    chunks: map<Id, Text>,
    announced: map<Id, seq<ToolNote>>,
    owner: map<Id, Id>,
    requests: set<Id>,
    seen: map<Id, seq<Text>>)

  datatype Event =
    | CreateSession(sid: Id, key: string, cwd: string)   // newSession and loadSession after their awaits
    | SetMode(sid: Id)
    | Prompt(sid: Id, run: Id, controller: Controller, fits: bool)
    | RequestDone(run: Id)
    | RequestFailed(run: Id)
    | CancelBegin(sid: Id)
    | CancelEnd(sid: Id)                                   // after the chat.abort request
    | Chat(key: string, runId: Option<Id>, state: ChatState)
    | Tool(key: string, toolCallId: string, phase: ToolPhase)
    | Disconnect

  const NewAgent := Agent(NewStore, Empty<Id, Pending>(), map[], map[], map[], map[], {}, map[])

  /** Promises settle once: a later resolve or reject is ignored. */
  function Settle(settled: map<Id, Settlement>, run: Id, how: Settlement): map<Id, Settlement> {
    if run in settled then settled else settled[run := how]
  }

  function FirstWithKey(order: seq<Id>, pending: map<Id, Pending>, key: string): (sid: Option<Id>)
    requires forall k :: k in order ==> k in pending
    ensures sid.Some? ==> sid.value in order && pending[sid.value].sessionKey == key
    ensures sid.None? ==> forall k :: k in order ==> pending[k].sessionKey != key
  {
    if order == [] then None
    else if pending[order[0]].sessionKey == key then Some(order[0])
    else FirstWithKey(order[1..], pending, key)
  }

  function FindPending(a: Agent, key: string): Option<Id> {
    FirstWithKey(a.pending.order, a.pending.values, key)
  }

  function ClearRuns(st: Store, sids: seq<Id>, now: int): Store
    decreases |sids|
  {
    if sids == [] then st else ClearRuns(ClearRun(st, sids[0], now), sids[1..], now)
  }

  function RejectAll(settled: map<Id, Settlement>, sids: seq<Id>, pending: map<Id, Pending>): map<Id, Settlement>
    requires forall k :: k in sids ==> k in pending
    decreases |sids|
  {
    if sids == [] then settled
    else RejectAll(Settle(settled, pending[sids[0]].run, Rejected), sids[1..], pending)
  }

  function OnPrompt(a: Agent, sid: Id, run: Id, c: Controller, fits: bool, now: int): Agent {
    if !a.store.sessions.Has(sid) then a
    else
      var key := a.store.sessions.values[sid].sessionKey;
      var st := CancelRun(Touch(a.store, sid, now), sid, now);
      var a1 := a.(store := st);
      if fits then StartRun(a1, sid, key, run, c, now) else a1
  }

  function StartRun(a: Agent, sid: Id, key: string, run: Id, c: Controller, now: int): Agent {
    a.(store := SetRun(a.store, sid, run, c, now), pending := Set(a.pending, sid, Pending(key, run, 0, {})),
       chunks := a.chunks[run := []], announced := a.announced[run := []], seen := a.seen[run := []],
       owner := a.owner[run := sid], requests := a.requests + {run})
  }

  function OnRequestFailed(a: Agent, run: Id, now: int): Agent
    requires run in a.owner
  {
    var sid := a.owner[run];
    a.(pending := Remove(a.pending, sid), store := ClearRun(a.store, sid, now),
       settled := Settle(a.settled, run, Rejected), requests := a.requests - {run})
  }

  function OnCancelEnd(a: Agent, sid: Id): Agent {
    if !a.pending.Has(sid) then a
    else
      a.(pending := Remove(a.pending, sid), settled := Settle(a.settled, a.pending.values[sid].run, Cancelled))
  }

  function Finish(a: Agent, sid: Id, how: Settlement, now: int): Agent
    requires a.pending.Has(sid)
  {
    a.(pending := Remove(a.pending, sid), store := ClearRun(a.store, sid, now),
       settled := Settle(a.settled, a.pending.values[sid].run, how))
  }

  /** Only the part of the cumulative text that has not been sent goes out. */
  function OnDelta(a: Agent, sid: Id, fullText: Text): Agent
    requires a.pending.Has(sid)
  {
    var p := a.pending.values[sid];
    var heard := a.(seen := a.seen[p.run := Lookup(a.seen, p.run) + [fullText]]);
    if |fullText| <= p.sentTextLength then heard
    else
      heard.(pending := Set(a.pending, sid, p.(sentTextLength := |fullText|)),
             chunks := a.chunks[p.run := Lookup(a.chunks, p.run) + fullText[p.sentTextLength..]])
  }

  function Lookup<T>(m: map<Id, seq<T>>, run: Id): seq<T> {
    if run in m then m[run] else []
  }

  /** Whether a chat event is for the prompt that its session key finds first. */
  predicate Addressed(a: Agent, key: string, runId: Option<Id>) {
    && key != ""
    && FindPending(a, key).Some?
    && (Names(runId) ==> a.pending.values[FindPending(a, key).value].run == runId.value)
  }

  function OnChat(a: Agent, key: string, runId: Option<Id>, state: ChatState, now: int): Agent {
    if !Addressed(a, key, runId) then a
    else
      var sid := FindPending(a, key).value;
      match state
      case Delta(fullText) => OnDelta(a, sid, fullText)
      case Final => Finish(a, sid, EndTurn, now)
      case Aborted => Finish(a, sid, Cancelled, now)
      case Error => Finish(a, sid, Refusal, now)
      case OtherState => a
  }

  function OnTool(a: Agent, key: string, toolCallId: string, phase: ToolPhase): Agent {
    var found := FindPending(a, key);
    if key == "" || toolCallId == "" || found.None? then a
    else
      var p := a.pending.values[found.value];
      match phase
      case ToolStart => if toolCallId in p.toolCalls then a else StartTool(a, found.value, toolCallId)
      case ToolResult(failed) => Announce(a, p.run, Updated(toolCallId, failed))
      case OtherPhase => a
  }

  /** The first start of a tool call for the prompt of session sid. */
  function StartTool(a: Agent, sid: Id, toolCallId: string): Agent
    requires a.pending.Has(sid)
  {
    var p := a.pending.values[sid];
    Announce(a.(pending := Set(a.pending, sid, p.(toolCalls := p.toolCalls + {toolCallId}))), p.run, Called(toolCallId))
  }

  function Announce(a: Agent, run: Id, note: ToolNote): Agent {
    a.(announced := a.announced[run := Lookup(a.announced, run) + [note]])
  }

  function OnDisconnect(a: Agent, now: int): Agent {
    a.(store := ClearRuns(a.store, a.pending.order, now), pending := Empty<Id, Pending>(),
       settled := RejectAll(a.settled, a.pending.order, a.pending.values))
  }

  /** Run ids are fresh and not empty; a request finishes once. */
  predicate Enabled(a: Agent, e: Event) {
    match e
    case Prompt(_, run, _, _) => run != "" && run !in a.owner
    case RequestDone(run) => run in a.requests && run in a.owner
    case RequestFailed(run) => run in a.requests && run in a.owner
    case _ => true
  }

  function Next(lim: Limits, a: Agent, e: Event, now: int): Agent
    requires Enabled(a, e)
  {
    match e
    case CreateSession(sid, key, cwd) => a.(store := Create(lim, a.store, sid, key, cwd, now).store)
    case SetMode(sid) => a.(store := Touch(a.store, sid, now))
    case Prompt(sid, run, c, fits) => OnPrompt(a, sid, run, c, fits, now)
    case RequestDone(run) => a.(requests := a.requests - {run})
    case RequestFailed(run) => OnRequestFailed(a, run, now)
    case CancelBegin(sid) => a.(store := CancelRun(Touch(a.store, sid, now), sid, now))
    case CancelEnd(sid) => OnCancelEnd(a, sid)
    case Chat(key, runId, state) => OnChat(a, key, runId, state, now)
    case Tool(key, toolCallId, phase) => OnTool(a, key, toolCallId, phase)
    case Disconnect => OnDisconnect(a, now)
  }

  // ---------------------------------------------------------------- the agent object

  class AcpGatewayAgent {
    const sessionStore: SessionStore
    var pendingPrompts: JsMap<Id, Pending>
    var settled: map<Id, Settlement>
    var chunks: map<Id, Text>
    var announced: map<Id, seq<ToolNote>>
    ghost var owner: map<Id, Id>
    ghost var requests: set<Id>
    ghost var seen: map<Id, seq<Text>>

    constructor (store: SessionStore)
      requires store.State() == NewStore
      ensures State() == NewAgent && sessionStore == store
    {
      sessionStore := store;
      pendingPrompts := Empty<Id, Pending>();
      settled, chunks, announced := map[], map[], map[];
      owner, requests, seen := map[], {}, map[];
    }

    ghost function State(): Agent
      reads this, sessionStore
    {
      Agent(sessionStore.State(), pendingPrompts, settled, chunks, announced, owner, requests, seen)
    }

    /** The promise of a prompt settles, if it has not settled before. */
    method SettlePromise(run: Id, how: Settlement)
      modifies this`settled
      ensures settled == Settle(old(settled), run, how)
    {
      if run !in settled {
        settled := settled[run := how];
      }
    }

    method FindPendingBySessionKey(sessionKey: string) returns (found: Option<Id>)
      ensures found == FindPending(State(), sessionKey)
    {
      var order := pendingPrompts.order;
      var i := 0;
      while i < |order|
        invariant 0 <= i <= |order|
        invariant FindPending(State(), sessionKey) == FirstWithKey(order[i..], pendingPrompts.values, sessionKey)
      {
        if pendingPrompts.values[order[i]].sessionKey == sessionKey {
          return Some(order[i]);
        }
        assert order[i..][1..] == order[i + 1..];
        i := i + 1;
      }
      return None;
    }

    method FinishCreate(sid: Id, key: string, cwd: string, now: int) returns (ok: bool)
      modifies this, sessionStore
      ensures State() == Next(sessionStore.limits, old(State()), CreateSession(sid, key, cwd), now)
    {
      ok := sessionStore.CreateSession(sid, key, cwd, now);
    }

    method SetSessionMode(sid: Id, now: int) returns (found: bool)
      modifies this, sessionStore
      ensures State() == Next(sessionStore.limits, old(State()), SetMode(sid), now)
      ensures found == old(sessionStore.sessions.Has(sid))
    {
      var session := sessionStore.GetSession(sid, now);
      found := session.Some?;
    }

    /** Up to and including the chat.send request; `sent` is false when the method throws before that. */
    method SendPrompt(sid: Id, run: Id, controller: Controller, fits: bool, now: int) returns (sent: bool)
      requires Enabled(State(), Prompt(sid, run, controller, fits))
      modifies this, sessionStore
      ensures State() == Next(sessionStore.limits, old(State()), Prompt(sid, run, controller, fits), now)
      ensures sent == (old(sessionStore.sessions.Has(sid)) && fits)
    {
      var session := sessionStore.GetSession(sid, now);
      if session.None? {
        return false;
      }
      if session.value.abortController.Some? {
        var _ := sessionStore.CancelActiveRun(sid, now);
      }
      if !fits {
        return false;
      }
      RegisterRun(sid, session.value.sessionKey, run, controller, now);
      return true;
    }

    method RegisterRun(sid: Id, key: string, run: Id, controller: Controller, now: int)
      modifies this, sessionStore
      ensures State() == StartRun(old(State()), sid, key, run, controller, now)
    {
      sessionStore.SetActiveRun(sid, run, controller, now);
      pendingPrompts := Set(pendingPrompts, sid, Pending(key, run, 0, {}));
      chunks, announced := chunks[run := []], announced[run := []];
      seen, owner, requests := seen[run := []], owner[run := sid], requests + {run};
    }

    /** The catch handler of the request that `run` started for `sid`. */
    method FailRequest(sid: Id, run: Id, now: int)
      requires Enabled(State(), RequestFailed(run)) && owner[run] == sid
      modifies this, sessionStore
      ensures State() == Next(sessionStore.limits, old(State()), RequestFailed(run), now)
    {
      pendingPrompts := Remove(pendingPrompts, sid);
      sessionStore.ClearActiveRun(sid, now);
      SettlePromise(run, Rejected);
      requests := requests - {run};
    }

    method BeginCancel(sid: Id, now: int) returns (found: bool)
      modifies this, sessionStore
      ensures State() == Next(sessionStore.limits, old(State()), Event.CancelBegin(sid), now)
    {
      var session := sessionStore.GetSession(sid, now);
      found := session.Some?;
      if found {
        var _ := sessionStore.CancelActiveRun(sid, now);
      }
    }

    method EndCancel(sid: Id)
      modifies this, sessionStore
      ensures State() == Next(sessionStore.limits, old(State()), Event.CancelEnd(sid), 0)
    {
      if pendingPrompts.Has(sid) {
        var pending := pendingPrompts.values[sid];
        pendingPrompts := Remove(pendingPrompts, sid);
        SettlePromise(pending.run, Cancelled);
      }
    }

    method FinishPrompt(sid: Id, how: Settlement, now: int)
      requires pendingPrompts.Has(sid)
      modifies this, sessionStore
      ensures State() == Finish(old(State()), sid, how, now)
    {
      hide ClearRun, Settle, Remove;
      var pending := pendingPrompts.values[sid];
      pendingPrompts := Remove(pendingPrompts, sid);
      sessionStore.ClearActiveRun(sid, now);
      SettlePromise(pending.run, how);
    }

    method HandleDelta(sid: Id, fullText: Text)
      requires pendingPrompts.Has(sid)
      modifies this
      ensures State() == OnDelta(old(State()), sid, fullText)
    {
      var pending := pendingPrompts.values[sid];
      seen := seen[pending.run := Lookup(seen, pending.run) + [fullText]];
      if |fullText| <= pending.sentTextLength {
        return;
      }
      var newText := fullText[pending.sentTextLength..];
      pendingPrompts := Set(pendingPrompts, sid, pending.(sentTextLength := |fullText|));
      chunks := chunks[pending.run := Lookup(chunks, pending.run) + newText];
    }

    method HandleChat(key: string, runId: Option<Id>, state: ChatState, now: int)
      modifies this, sessionStore
      ensures State() == Next(sessionStore.limits, old(State()), Chat(key, runId, state), now)
    {
      if key == "" {
        return;
      }
      var found := FindPendingBySessionKey(key);
      if found.None? {
        return;
      }
      var sid := found.value;
      if Names(runId) && pendingPrompts.values[sid].run != runId.value {
        return;
      }
      match state {
        case Delta(fullText) => HandleDelta(sid, fullText);
        case Final => FinishPrompt(sid, EndTurn, now);
        case Aborted => FinishPrompt(sid, Cancelled, now);
        case Error => FinishPrompt(sid, Refusal, now);
        case OtherState =>
      }
    }

    method HandleTool(key: string, toolCallId: string, phase: ToolPhase)
      modifies this
      ensures State() == Next(sessionStore.limits, old(State()), Tool(key, toolCallId, phase), 0)
    {
      if key == "" || toolCallId == "" {
        return;
      }
      var found := FindPendingBySessionKey(key);
      if found.None? {
        return;
      }
      var pending := pendingPrompts.values[found.value];
      match phase {
        case ToolStart =>
          if toolCallId in pending.toolCalls {
            return;
          }
          pending := pending.(toolCalls := pending.toolCalls + {toolCallId});
          pendingPrompts := Set(pendingPrompts, found.value, pending);
          SendUpdate(pending.run, Called(toolCallId));
        case ToolResult(failed) => SendUpdate(pending.run, Updated(toolCallId, failed));
        case OtherPhase =>
      }
    }

    method SendUpdate(run: Id, note: ToolNote)
      modifies this`announced
      ensures State() == Announce(old(State()), run, note)
    {
      announced := announced[run := Lookup(announced, run) + [note]];
    }

    method HandleDisconnect(now: int)
      modifies this, sessionStore
      ensures State() == Next(sessionStore.limits, old(State()), Event.Disconnect, now)
    {
      RejectPending(now);
      pendingPrompts := Empty<Id, Pending>();
    }

    method RejectPending(now: int)
      modifies this`settled, sessionStore
      ensures sessionStore.State() == ClearRuns(old(sessionStore.State()), pendingPrompts.order, now)
      ensures settled == RejectAll(old(settled), pendingPrompts.order, pendingPrompts.values)
    {
      var order := pendingPrompts.order;
      var i := 0;
      while i < |order|
        invariant 0 <= i <= |order|
        invariant ClearRuns(sessionStore.State(), order[i..], now) == ClearRuns(old(sessionStore.State()), order, now)
        invariant RejectAll(settled, order[i..], pendingPrompts.values)
               == RejectAll(old(settled), order, pendingPrompts.values)
      {
        var pending := pendingPrompts.values[order[i]];
        assert order[i..][1..] == order[i + 1..];
        SettlePromise(pending.run, Rejected);
        sessionStore.ClearActiveRun(order[i], now);
        i := i + 1;
      }
    }
  }
}
