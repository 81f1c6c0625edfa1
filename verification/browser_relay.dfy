/** The bookkeeping of the browser relay's service worker, assets/chrome-extension/background.js: which tabs are
    attached, under which session id, and what is saved across worker restarts. Handlers are cut at their awaits;
    each synchronous stretch is one event. */
module BrowserRelays {
  import opened JsMaps
  import opened Decimal

  /** Chrome's tab ids are positive; the code treats 0 as "no tab". */
  type TabId = n: nat | n > 0 witness 1

  datatype Tab = Connecting | Connected(sessionId: string, targetId: string, attachOrder: nat)

  datatype Entry = Entry(tabId: TabId, sessionId: string, targetId: string, attachOrder: nat)

  datatype Snapshot = Snapshot(entries: seq<Entry>, nextSession: nat)

  /** `written` lists every snapshot handed to the session storage: which of them a restart finds is not known. */
  datatype Relay = Relay(
    tabs: JsMap<TabId, Tab>,
    tabBySession: map<string, TabId>,
    nextSession: nat,
    reattachPending: set<TabId>,
    locks: set<TabId>,
    written: seq<Snapshot>)

  datatype Event =
    | Click(tabId: TabId)                                 // the toolbar button, once the active tab is known
    | ClickDone(tabId: TabId)
    | Attached(tabId: TabId, targetId: string, relayOpen: bool)
    | ConnectFailed(tabId: TabId)
    | Detached(tabId: TabId)
    | DebuggerLost(tabId: TabId)                          // the tab still exists: navigation
    | ReattachEnded(tabId: TabId)
    | TabRemoved(tabId: TabId)
    | TabReplaced(added: TabId, removed: TabId)
    | ProbeFailed(tabId: TabId, sessionId: string)        // with the session id read before the probe
    | RelayClosed
    | Persist
    | Restart(saved: nat, dead: set<TabId>)

  const FirstRelay := Relay(Empty<TabId, Tab>(), map[], 1, {}, {}, [])

  function SessionName(n: nat): string {
    "cb-tab-" + Digits(n)
  }

  predicate ConnectedTab(r: Relay, t: TabId) {
    r.tabs.Has(t) && r.tabs.values[t].Connected?
  }

  // ---------------------------------------------------------------- saving

  function EntryOf(t: TabId, tab: Tab): seq<Entry> {
    if tab.Connected? && tab.sessionId != "" && tab.targetId != "" then
      [Entry(t, tab.sessionId, tab.targetId, tab.attachOrder)]
    else []
  }

  function EntriesOf(order: seq<TabId>, tabs: map<TabId, Tab>): seq<Entry>
    requires forall t :: t in order ==> t in tabs
  {
    if order == [] then []
    else EntriesOf(order[..|order| - 1], tabs) + EntryOf(order[|order| - 1], tabs[order[|order| - 1]])
  }

  function Save(r: Relay): Relay {
    r.(written := r.written + [Snapshot(EntriesOf(r.tabs.order, r.tabs.values), r.nextSession)])
  }

  // ---------------------------------------------------------------- restoring

  /** The maps after the first phase of rehydration. */
  function Restore(entries: seq<Entry>): (JsMap<TabId, Tab>, map<string, TabId>) {
    if entries == [] then (Empty<TabId, Tab>(), map[])
    else
      var n := |entries| - 1;
      var (tabs, bySession) := Restore(entries[..n]);
      var e := entries[n];
      (Set(tabs, e.tabId, Connected(e.sessionId, e.targetId, e.attachOrder)), bySession[e.sessionId := e.tabId])
  }

  /** The second phase drops the entries whose tab is dead. */
  function DropDead(tabs: JsMap<TabId, Tab>, bySession: map<string, TabId>, entries: seq<Entry>, dead: set<TabId>)
    : (JsMap<TabId, Tab>, map<string, TabId>)
    decreases |entries|
  {
    if entries == [] then (tabs, bySession)
    else
      var e := entries[0];
      if e.tabId in dead then DropDead(Remove(tabs, e.tabId), bySession - {e.sessionId}, entries[1..], dead)
      else DropDead(tabs, bySession, entries[1..], dead)
  }

  function Max(a: nat, b: nat): nat {
    if a < b then b else a
  }

  function Rehydrate(s: Snapshot, dead: set<TabId>, written: seq<Snapshot>): Relay {
    var (tabs0, bySession0) := Restore(s.entries);
    var (tabs, bySession) := DropDead(tabs0, bySession0, s.entries, dead);
    Relay(tabs, bySession, Max(1, s.nextSession), {}, {}, written)
  }

  // ---------------------------------------------------------------- events

  function Forget(bySession: map<string, TabId>, tabs: JsMap<TabId, Tab>, t: TabId): map<string, TabId> {
    if tabs.Has(t) && tabs.values[t].Connected? then bySession - {tabs.values[t].sessionId} else bySession
  }

  function DropTab(r: Relay, t: TabId): Relay {
    r.(tabs := Remove(r.tabs, t), tabBySession := Forget(r.tabBySession, r.tabs, t))
  }

  function OnClick(r: Relay, t: TabId): Relay {
    if t in r.locks then r
    else
      var locked := r.(locks := r.locks + {t});
      if t in r.reattachPending then locked.(reattachPending := r.reattachPending - {t})
      else if ConnectedTab(r, t) then DropTab(locked, t)
      else locked.(tabs := Set(r.tabs, t, Connecting))
  }

  /** The end of `attachTab`. If the relay is down, announcing the tab throws: the maps have already changed, but
      nothing is saved. */
  function OnAttached(r: Relay, t: TabId, targetId: string, relayOpen: bool): Relay {
    var sessionId := SessionName(r.nextSession);
    var a := r.(tabs := Set(r.tabs, t, Connected(sessionId, targetId, r.nextSession)),
                tabBySession := r.tabBySession[sessionId := t], nextSession := r.nextSession + 1);
    if relayOpen then Save(a) else a
  }

  function OnDebuggerLost(r: Relay, t: TabId): Relay {
    if t in r.reattachPending then r
    else DropTab(r, t).(reattachPending := r.reattachPending + {t})
  }

  function OnTabRemoved(r: Relay, t: TabId): Relay {
    var calm := r.(reattachPending := r.reattachPending - {t});
    if r.tabs.Has(t) then Save(DropTab(calm, t)) else calm
  }

  function Moved(r: Relay, added: TabId, removed: TabId): Relay
    requires r.tabs.Has(removed)
  {
    var tab := r.tabs.values[removed];
    r.(tabs := Set(Remove(r.tabs, removed), added, tab),
       tabBySession := if tab.Connected? then r.tabBySession[tab.sessionId := added] else r.tabBySession)
  }

  function OnTabReplaced(r: Relay, added: TabId, removed: TabId): Relay {
    if !r.tabs.Has(removed) then r else Save(Moved(r, added, removed))
  }

  predicate Enabled(r: Relay, e: Event) {
    match e
    case Attached(_, targetId, _) => targetId != ""
    case Restart(saved, _) => saved <= |r.written|
    case _ => true
  }

  function Next(r: Relay, e: Event): Relay
    requires Enabled(r, e)
  {
    match e
    case Click(t) => OnClick(r, t)
    case ClickDone(t) => r.(locks := r.locks - {t})
    case Attached(t, targetId, relayOpen) => OnAttached(r, t, targetId, relayOpen)
    case ConnectFailed(t) => r.(tabs := Remove(r.tabs, t))
    case Detached(t) => DropTab(r, t)
    case DebuggerLost(t) => OnDebuggerLost(r, t)
    case ReattachEnded(t) => r.(reattachPending := r.reattachPending - {t})
    case TabRemoved(t) => OnTabRemoved(r, t)
    case TabReplaced(added, removed) => OnTabReplaced(r, added, removed)
    case ProbeFailed(t, sid) => r.(tabs := Remove(r.tabs, t), tabBySession := r.tabBySession - {sid})
    case RelayClosed => r.(reattachPending := {})
    case Persist => Save(r)
    case Restart(saved, dead) =>
      // One past the last snapshot stands for a storage that returns nothing.
      if saved == |r.written| then FirstRelay.(written := r.written)
      else Rehydrate(r.written[saved], dead, r.written)
  }

  // ---------------------------------------------------------------- routing a command

  function FirstWithTarget(order: seq<TabId>, tabs: map<TabId, Tab>, targetId: string): Option<TabId>
    requires forall t :: t in order ==> t in tabs
  {
    if order == [] then None
    else if tabs[order[0]].Connected? && tabs[order[0]].targetId == targetId then Some(order[0])
    else FirstWithTarget(order[1..], tabs, targetId)
  }

  function FirstConnected(order: seq<TabId>, tabs: map<TabId, Tab>): (r: Option<TabId>)
    requires forall t :: t in order ==> t in tabs
    ensures r.Some? ==> r.value in tabs && tabs[r.value].Connected?
    ensures r.None? ==> forall t :: t in order ==> !tabs[t].Connected?
  {
    if order == [] then None
    else if tabs[order[0]].Connected? then Some(order[0])
    else FirstConnected(order[1..], tabs)
  }

  /** The tab a forwarded command goes to: by session id, then through the child-session map (`child`), then by
      target id, then the first connected tab. Empty ids count as absent. */
  function Route(r: Relay, sessionId: string, child: Option<TabId>, targetId: string): Option<TabId> {
    if sessionId != "" && sessionId in r.tabBySession then Some(r.tabBySession[sessionId])
    else if sessionId != "" && child.Some? then child
    else if targetId != "" && FirstWithTarget(r.tabs.order, r.tabs.values, targetId).Some? then
      FirstWithTarget(r.tabs.order, r.tabs.values, targetId)
    else FirstConnected(r.tabs.order, r.tabs.values)
  }

  // ---------------------------------------------------------------- the worker

  class ServiceWorker {
    var tabs: JsMap<TabId, Tab>
    var tabBySession: map<string, TabId>
    var nextSession: nat
    var reattachPending: set<TabId>
    var tabOperationLocks: set<TabId>
    var written: seq<Snapshot>

    constructor ()
      ensures State() == FirstRelay
    {
      tabs := Empty<TabId, Tab>();
      tabBySession, nextSession, reattachPending, tabOperationLocks, written := map[], 1, {}, {}, [];
    }

    ghost function State(): Relay
      reads this
    {
      Relay(tabs, tabBySession, nextSession, reattachPending, tabOperationLocks, written)
    }

    method PersistState()
      modifies this`written
      ensures State() == Save(old(State()))
    {
      var tabEntries: seq<Entry> := [];
      var order := tabs.order;
      var i := 0;
      while i < |order|
        invariant 0 <= i <= |order|
        invariant tabEntries == EntriesOf(order[..i], tabs.values)
      {
        assert order[..i + 1][..i] == order[..i];
        var tab := tabs.values[order[i]];
        if tab.Connected? && tab.sessionId != "" && tab.targetId != "" {
          tabEntries := tabEntries + [Entry(order[i], tab.sessionId, tab.targetId, tab.attachOrder)];
        }
        i := i + 1;
      }
      assert order[..|order|] == order;
      written := written + [Snapshot(tabEntries, nextSession)];
    }

    /** A new worker: fresh maps, then the two phases of `rehydrateState`. */
    method RehydrateState(stored: Snapshot, dead: set<TabId>)
      modifies this
      ensures State() == Rehydrate(stored, dead, old(written))
    {
      tabs := Empty<TabId, Tab>();
      tabBySession, nextSession, reattachPending, tabOperationLocks := map[], 1, {}, {};
      if stored.nextSession > nextSession {
        nextSession := stored.nextSession;
      }
      RestoreTabs(stored.entries);
      RemoveDeadTabs(stored.entries, dead);
    }

    method RestoreTabs(entries: seq<Entry>)
      requires tabs == Empty<TabId, Tab>() && tabBySession == map[]
      modifies this`tabs, this`tabBySession
      ensures (tabs, tabBySession) == Restore(entries)
    {
      for i := 0 to |entries|
        invariant (tabs, tabBySession) == Restore(entries[..i])
      {
        assert entries[..i + 1][..i] == entries[..i];
        var e := entries[i];
        tabs := Set(tabs, e.tabId, Connected(e.sessionId, e.targetId, e.attachOrder));
        tabBySession := tabBySession[e.sessionId := e.tabId];
      }
      assert entries[..|entries|] == entries;
    }

    method RemoveDeadTabs(entries: seq<Entry>, dead: set<TabId>)
      modifies this`tabs, this`tabBySession
      ensures (tabs, tabBySession) == DropDead(old(tabs), old(tabBySession), entries, dead)
    {
      for i := 0 to |entries|
        invariant DropDead(tabs, tabBySession, entries[i..], dead)
               == DropDead(old(tabs), old(tabBySession), entries, dead)
      {
        assert entries[i..][1..] == entries[i + 1..];
        var e := entries[i];
        if e.tabId in dead {
          tabs := Remove(tabs, e.tabId);
          tabBySession := tabBySession - {e.sessionId};
        }
      }
    }

    method CommitAttach(tabId: TabId, targetId: string, relayOpen: bool) returns (announced: bool)
      requires targetId != ""
      modifies this
      ensures State() == Next(old(State()), Event.Attached(tabId, targetId, relayOpen))
      ensures announced == relayOpen
    {
      var sid := nextSession;
      nextSession := nextSession + 1;
      var sessionId := SessionName(sid);
      tabs := Set(tabs, tabId, Connected(sessionId, targetId, sid));
      tabBySession := tabBySession[sessionId := tabId];
      if relayOpen {
        PersistState();
      }
      return relayOpen;
    }

    method DetachTab(tabId: TabId)
      modifies this`tabs, this`tabBySession
      ensures State() == Next(old(State()), Event.Detached(tabId))
    {
      if tabs.Has(tabId) && tabs.values[tabId].Connected? {
        tabBySession := tabBySession - {tabs.values[tabId].sessionId};
      }
      tabs := Remove(tabs, tabId);
    }

    method ConnectOrToggle(tabId: TabId) returns (connecting: bool)
      modifies this
      ensures State() == Next(old(State()), Event.Click(tabId))
    {
      if tabId in tabOperationLocks {
        return false;
      }
      tabOperationLocks := tabOperationLocks + {tabId};
      if tabId in reattachPending {
        reattachPending := reattachPending - {tabId};
        return false;
      }
      if tabs.Has(tabId) && tabs.values[tabId].Connected? {
        DetachTab(tabId);
        return false;
      }
      tabs := Set(tabs, tabId, Connecting);
      return true;
    }

    method LoseDebugger(tabId: TabId) returns (reattaching: bool)
      modifies this
      ensures State() == Next(old(State()), Event.DebuggerLost(tabId))
    {
      if tabId in reattachPending {
        return false;
      }
      DetachTab(tabId);
      reattachPending := reattachPending + {tabId};
      return true;
    }

    method RemoveTab(tabId: TabId)
      modifies this
      ensures State() == Next(old(State()), Event.TabRemoved(tabId))
    {
      reattachPending := reattachPending - {tabId};
      if !tabs.Has(tabId) {
        return;
      }
      DetachTab(tabId);
      PersistState();
    }

    method ReplaceTab(addedTabId: TabId, removedTabId: TabId)
      modifies this
      ensures State() == Next(old(State()), Event.TabReplaced(addedTabId, removedTabId))
    {
      if !tabs.Has(removedTabId) {
        return;
      }
      var tab := tabs.values[removedTabId];
      tabs := Remove(tabs, removedTabId);
      tabs := Set(tabs, addedTabId, tab);
      if tab.Connected? {
        tabBySession := tabBySession[tab.sessionId := addedTabId];
      }
      PersistState();
    }

    /** The catch branch of the re-announcing loop; `sessionId` was read before the probe. */
    method ProbeFails(tabId: TabId, sessionId: string)
      modifies this`tabs, this`tabBySession
      ensures State() == Next(old(State()), Event.ProbeFailed(tabId, sessionId))
    {
      tabs := Remove(tabs, tabId);
      tabBySession := tabBySession - {sessionId};
    }

    /** Where `handleForwardCdpCommand` sends a command. */
    method RouteCommand(sessionId: string, child: Option<TabId>, targetId: string) returns (tabId: Option<TabId>)
      ensures tabId == Route(State(), sessionId, child, targetId)
    {
      if sessionId != "" {
        if sessionId in tabBySession {
          return Some(tabBySession[sessionId]);
        }
        if child.Some? {
          return child;
        }
      }
      var order := tabs.order;
      if targetId != "" {
        var i := 0;
        while i < |order|
          invariant 0 <= i <= |order|
          invariant FirstWithTarget(order, tabs.values, targetId) == FirstWithTarget(order[i..], tabs.values, targetId)
        {
          var tab := tabs.values[order[i]];
          if tab.Connected? && tab.targetId == targetId {
            return Some(order[i]);
          }
          assert order[i..][1..] == order[i + 1..];
          i := i + 1;
        }
      }
      var k := 0;
      while k < |order|
        invariant 0 <= k <= |order|
        invariant FirstConnected(order, tabs.values) == FirstConnected(order[k..], tabs.values)
      {
        if tabs.values[order[k]].Connected? {
          return Some(order[k]);
        }
        assert order[k..][1..] == order[k + 1..];
        k := k + 1;
      }
      return None;
    }
  }
}
