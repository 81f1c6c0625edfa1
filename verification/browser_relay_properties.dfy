/** What every run of the service worker keeps, restarts included: session ids never clash, and a command carrying
    an attached tab's session id reaches that tab, unless a failed probe comes back late. */
module BrowserRelayProperties {
  import opened JsMaps
  import opened Decimal
  import opened BrowserRelays

  // ---------------------------------------------------------------- session ids

  predicate NumberedTab(tab: Tab, bound: nat) {
    tab.Connected? ==> tab.sessionId == SessionName(tab.attachOrder) && tab.targetId != "" && tab.attachOrder < bound
  }

  ghost predicate Numbered(r: Relay) {
    forall t :: t in r.tabs.values ==> NumberedTab(r.tabs.values[t], r.nextSession)
  }

  ghost predicate Separate(r: Relay) {
    forall t, u :: ConnectedTab(r, t) && ConnectedTab(r, u) && t != u ==>
                     r.tabs.values[t].attachOrder != r.tabs.values[u].attachOrder
  }

  predicate NumberedEntry(e: Entry, bound: nat) {
    e.sessionId == SessionName(e.attachOrder) && e.targetId != "" && e.attachOrder < bound
  }

  ghost predicate GoodSnapshot(s: Snapshot) {
    && (forall i :: 0 <= i < |s.entries| ==> NumberedEntry(s.entries[i], s.nextSession))
    && (forall i, j :: 0 <= i < j < |s.entries| ==>
                         && s.entries[i].tabId != s.entries[j].tabId
                         && s.entries[i].attachOrder != s.entries[j].attachOrder)
  }

  ghost predicate GoodHistory(ss: seq<Snapshot>) {
    forall i :: 0 <= i < |ss| ==> GoodSnapshot(ss[i])
  }

  /** Kept by every event, whatever the timing. */
  ghost predicate Inv(r: Relay) {
    Numbered(r) && Separate(r) && GoodHistory(r.written)
  }

  lemma NamesDiffer(m: nat, n: nat)
    requires SessionName(m) == SessionName(n)
    ensures m == n
  {
    assert Digits(m) == SessionName(m)[7..] && Digits(n) == SessionName(n)[7..];
    DigitsInjective(m, n);
  }

  lemma SessionsDistinct(r: Relay, t: TabId, u: TabId)
    requires Inv(r) && ConnectedTab(r, t) && ConnectedTab(r, u) && t != u
    ensures r.tabs.values[t].sessionId != r.tabs.values[u].sessionId
    ensures r.tabs.values[t].attachOrder < r.nextSession
  {
    assert NumberedTab(r.tabs.values[t], r.nextSession) && NumberedTab(r.tabs.values[u], r.nextSession);
    if r.tabs.values[t].sessionId == r.tabs.values[u].sessionId {
      NamesDiffer(r.tabs.values[t].attachOrder, r.tabs.values[u].attachOrder);
    }
  }

  // ---------------------------------------------------------------- what is saved

  predicate ListedEntry(e: Entry, order: seq<TabId>, tabs: map<TabId, Tab>)
    requires forall t :: t in order ==> t in tabs
  {
    e.tabId in order && tabs[e.tabId] == Connected(e.sessionId, e.targetId, e.attachOrder)
  }

  ghost predicate Lists(es: seq<Entry>, order: seq<TabId>, tabs: map<TabId, Tab>)
    requires forall t :: t in order ==> t in tabs
  {
    && (forall i :: 0 <= i < |es| ==> ListedEntry(es[i], order, tabs))
    && (forall i, j :: 0 <= i < j < |es| ==> es[i].tabId != es[j].tabId)
  }

  lemma {:induction false} SavedEntries(order: seq<TabId>, tabs: map<TabId, Tab>)
    requires Distinct(order) && forall t :: t in order ==> t in tabs
    ensures Lists(EntriesOf(order, tabs), order, tabs)
  {
    if order != [] {
      var n := |order| - 1;
      assert Distinct(order[..n]) && order[n] !in order[..n];
      SavedEntries(order[..n], tabs);
    }
  }

  lemma SaveKeepsInv(r: Relay)
    requires Inv(r)
    ensures Inv(Save(r))
  {
    var es := EntriesOf(r.tabs.order, r.tabs.values);
    SavedEntries(r.tabs.order, r.tabs.values);
    forall i | 0 <= i < |es| ensures NumberedEntry(es[i], r.nextSession) {
      assert NumberedTab(r.tabs.values[es[i].tabId], r.nextSession);
    }
    forall i, j | 0 <= i < j < |es| ensures es[i].attachOrder != es[j].attachOrder {
      assert ConnectedTab(r, es[i].tabId) && ConnectedTab(r, es[j].tabId);
    }
    assert GoodSnapshot(Snapshot(es, r.nextSession));
  }

  // ---------------------------------------------------------------- what a restart finds

  /** Every connected tab is found under its session id. */
  ghost predicate Routed(r: Relay) {
    forall t :: ConnectedTab(r, t) ==> RoutedTab(r, t)
  }

  predicate RoutedTab(r: Relay, t: TabId)
    requires ConnectedTab(r, t)
  {
    r.tabs.values[t].sessionId in r.tabBySession && r.tabBySession[r.tabs.values[t].sessionId] == t
  }

  /** No session id leads to a tab that does not carry it. */
  ghost predicate StaleFree(r: Relay) {
    forall s :: s in r.tabBySession ==> FreshEntry(r, s)
  }

  predicate FreshEntry(r: Relay, s: string)
    requires s in r.tabBySession
  {
    ConnectedTab(r, r.tabBySession[s]) && r.tabs.values[r.tabBySession[s]].sessionId == s
  }

  predicate Restored(e: Entry, tabs: map<TabId, Tab>, bySession: map<string, TabId>) {
    && e.tabId in tabs && tabs[e.tabId] == Connected(e.sessionId, e.targetId, e.attachOrder)
    && e.sessionId in bySession && bySession[e.sessionId] == e.tabId
  }

  predicate Gone(e: Entry, tabs: map<TabId, Tab>, bySession: map<string, TabId>) {
    e.tabId !in tabs && e.sessionId !in bySession
  }

  ghost predicate HasTab(es: seq<Entry>, dead: set<TabId>, t: TabId) {
    exists i :: 0 <= i < |es| && es[i].tabId == t && t !in dead
  }

  ghost predicate HasSession(es: seq<Entry>, dead: set<TabId>, s: string) {
    exists i :: 0 <= i < |es| && es[i].sessionId == s && es[i].tabId !in dead
  }

  /** The two maps hold exactly the entries of `es` whose tab is not dead. */
  ghost predicate Holds(es: seq<Entry>, dead: set<TabId>, tabs: map<TabId, Tab>, ids: map<string, TabId>) {
    && (forall i :: 0 <= i < |es| && es[i].tabId !in dead ==> Restored(es[i], tabs, ids))
    && (forall t :: t in tabs ==> HasTab(es, dead, t))
    && (forall s :: s in ids ==> HasSession(es, dead, s))
  }

  ghost predicate Apart(es: seq<Entry>) {
    forall i, j :: 0 <= i < j < |es| ==> es[i].tabId != es[j].tabId && es[i].sessionId != es[j].sessionId
  }

  lemma GoodIsApart(s: Snapshot)
    requires GoodSnapshot(s)
    ensures Apart(s.entries)
  {
    forall i, j | 0 <= i < j < |s.entries| ensures s.entries[i].sessionId != s.entries[j].sessionId {
      assert NumberedEntry(s.entries[i], s.nextSession) && NumberedEntry(s.entries[j], s.nextSession);
      if s.entries[i].sessionId == s.entries[j].sessionId {
        NamesDiffer(s.entries[i].attachOrder, s.entries[j].attachOrder);
      }
    }
  }

  lemma HasMore(es: seq<Entry>, e: Entry, dead: set<TabId>)
    ensures forall t :: HasTab(es, dead, t) ==> HasTab(es + [e], dead, t)
    ensures forall s :: HasSession(es, dead, s) ==> HasSession(es + [e], dead, s)
    ensures e.tabId !in dead ==> HasTab(es + [e], dead, e.tabId) && HasSession(es + [e], dead, e.sessionId)
  {
    assert (es + [e])[|es|] == e;
    forall t | HasTab(es, dead, t) ensures HasTab(es + [e], dead, t) {
      var i :| 0 <= i < |es| && es[i].tabId == t;
      assert (es + [e])[i].tabId == t;
    }
    forall s | HasSession(es, dead, s) ensures HasSession(es + [e], dead, s) {
      var i :| 0 <= i < |es| && es[i].sessionId == s && es[i].tabId !in dead;
      assert (es + [e])[i].sessionId == s;
    }
  }

  lemma RestoreOne(es: seq<Entry>, e: Entry, tabs: map<TabId, Tab>, ids: map<string, TabId>)
    requires Holds(es, {}, tabs, ids) && Apart(es + [e])
    ensures Holds(es + [e], {}, tabs[e.tabId := Connected(e.sessionId, e.targetId, e.attachOrder)],
                  ids[e.sessionId := e.tabId])
  {
    HasMore(es, e, {});
    var all := es + [e];
    var tabs', ids' := tabs[e.tabId := Connected(e.sessionId, e.targetId, e.attachOrder)], ids[e.sessionId := e.tabId];
    assert all[|es|] == e;
    forall i | 0 <= i < |all| ensures Restored(all[i], tabs', ids') {
      if i < |es| {
        assert all[i] == es[i] && Restored(es[i], tabs, ids);
      }
    }
  }

  lemma {:induction false} RestoreHolds(es: seq<Entry>)
    requires Apart(es)
    ensures Holds(es, {}, Restore(es).0.values, Restore(es).1)
  {
    if es != [] {
      var init, e := es[..|es| - 1], es[|es| - 1];
      RestoreHolds(init);
      assert es == init + [e];
      RestoreOne(init, e, Restore(init).0.values, Restore(init).1);
    }
  }

  predicate DroppedUpTo(es: seq<Entry>, k: nat, dead: set<TabId>, i: nat,
                        tabs: map<TabId, Tab>, ids: map<string, TabId>)
    requires i < |es|
  {
    if i < k && es[i].tabId in dead then Gone(es[i], tabs, ids) else Restored(es[i], tabs, ids)
  }

  /** The maps while the dead tabs of `es[..k]` are gone and the rest is still there. */
  ghost predicate Partly(es: seq<Entry>, k: nat, dead: set<TabId>, tabs: map<TabId, Tab>, ids: map<string, TabId>) {
    && (forall i :: 0 <= i < |es| ==> DroppedUpTo(es, k, dead, i, tabs, ids))
    && (forall t :: t in tabs ==> HasTab(es, {}, t))
    && (forall s :: s in ids ==> HasSession(es, {}, s))
  }

  lemma DropOne(es: seq<Entry>, k: nat, dead: set<TabId>, tabs: map<TabId, Tab>, ids: map<string, TabId>)
    requires Apart(es) && k < |es| && Partly(es, k, dead, tabs, ids)
    ensures es[k].tabId in dead ==> Partly(es, k + 1, dead, tabs - {es[k].tabId}, ids - {es[k].sessionId})
    ensures es[k].tabId !in dead ==> Partly(es, k + 1, dead, tabs, ids)
  {
    var tabs' := if es[k].tabId in dead then tabs - {es[k].tabId} else tabs;
    var ids' := if es[k].tabId in dead then ids - {es[k].sessionId} else ids;
    var n := k + 1;
    forall i | 0 <= i < |es| ensures DroppedUpTo(es, n, dead, i, tabs', ids') {
      assert DroppedUpTo(es, k, dead, i, tabs, ids);
      assert i < k ==> es[i].tabId != es[k].tabId && es[i].sessionId != es[k].sessionId;
      assert i > k ==> es[i].tabId != es[k].tabId && es[i].sessionId != es[k].sessionId;
    }
  }

  lemma AllDropped(es: seq<Entry>, dead: set<TabId>, tabs: map<TabId, Tab>, ids: map<string, TabId>)
    requires Partly(es, |es|, dead, tabs, ids)
    ensures Holds(es, dead, tabs, ids)
  {
    forall i | 0 <= i < |es| && es[i].tabId !in dead ensures Restored(es[i], tabs, ids) {
      assert DroppedUpTo(es, |es|, dead, i, tabs, ids);
    }
    forall t | t in tabs ensures HasTab(es, dead, t) {
      assert HasTab(es, {}, t);
      var i :| 0 <= i < |es| && es[i].tabId == t;
      assert DroppedUpTo(es, |es|, dead, i, tabs, ids);
    }
    forall s | s in ids ensures HasSession(es, dead, s) {
      assert HasSession(es, {}, s);
      var i :| 0 <= i < |es| && es[i].sessionId == s;
      assert DroppedUpTo(es, |es|, dead, i, tabs, ids);
    }
  }

  lemma {:induction false} DropDeadHolds(es: seq<Entry>, k: nat, dead: set<TabId>,
                                         tabs: JsMap<TabId, Tab>, ids: map<string, TabId>)
    requires Apart(es) && k <= |es| && Partly(es, k, dead, tabs.values, ids)
    ensures Holds(es, dead, DropDead(tabs, ids, es[k..], dead).0.values, DropDead(tabs, ids, es[k..], dead).1)
    decreases |es| - k
  {
    if k == |es| {
      AllDropped(es, dead, tabs.values, ids);
    } else {
      assert es[k..][1..] == es[k + 1..];
      DropOne(es, k, dead, tabs.values, ids);
      if es[k].tabId in dead {
        DropDeadHolds(es, k + 1, dead, Remove(tabs, es[k].tabId), ids - {es[k].sessionId});
      } else {
        DropDeadHolds(es, k + 1, dead, tabs, ids);
      }
    }
  }

  lemma RehydrateHolds(s: Snapshot, dead: set<TabId>, written: seq<Snapshot>)
    requires GoodSnapshot(s)
    ensures var r := Rehydrate(s, dead, written); Holds(s.entries, dead, r.tabs.values, r.tabBySession)
  {
    var es := s.entries;
    var (tabs, ids) := Restore(es);
    GoodIsApart(s);
    RestoreHolds(es);
    forall i | 0 <= i < |es| ensures DroppedUpTo(es, 0, dead, i, tabs.values, ids) {
      assert Restored(es[i], tabs.values, ids);
    }
    assert es[0..] == es;
    DropDeadHolds(es, 0, dead, tabs, ids);
  }

  /** Whatever good snapshot a restart finds, and whichever of its tabs died meanwhile, exactly the surviving
      entries come back, and the two maps are inverse to each other. */
  lemma RestartRestores(s: Snapshot, dead: set<TabId>, written: seq<Snapshot>)
    requires GoodSnapshot(s)
    ensures var r := Rehydrate(s, dead, written);
            && Holds(s.entries, dead, r.tabs.values, r.tabBySession)
            && Numbered(r) && Separate(r) && Routed(r) && StaleFree(r)
  {
    var r := Rehydrate(s, dead, written);
    RehydrateHolds(s, dead, written);
    HeldMapsAgree(s.entries, dead, r);
    HeldTabsAreNumbered(s, dead, r);
  }

  lemma HeldTabsAreNumbered(s: Snapshot, dead: set<TabId>, r: Relay)
    requires GoodSnapshot(s) && s.nextSession <= r.nextSession
    requires Holds(s.entries, dead, r.tabs.values, r.tabBySession)
    ensures Numbered(r) && Separate(r)
  {
    var es := s.entries;
    forall t | t in r.tabs.values ensures NumberedTab(r.tabs.values[t], r.nextSession) {
      var i := Held(es, dead, r, t);
      assert NumberedEntry(es[i], s.nextSession);
    }
    forall t, u | ConnectedTab(r, t) && ConnectedTab(r, u) && t != u
      ensures r.tabs.values[t].attachOrder != r.tabs.values[u].attachOrder {
      var i := Held(es, dead, r, t);
      var j := Held(es, dead, r, u);
      assert i < j || j < i;
    }
  }

  lemma Held(es: seq<Entry>, dead: set<TabId>, r: Relay, t: TabId) returns (i: nat)
    requires Holds(es, dead, r.tabs.values, r.tabBySession) && t in r.tabs.values
    ensures i < |es| && es[i].tabId == t && Restored(es[i], r.tabs.values, r.tabBySession)
  {
    assert HasTab(es, dead, t);
    i :| 0 <= i < |es| && es[i].tabId == t && t !in dead;
  }

  lemma HeldMapsAgree(es: seq<Entry>, dead: set<TabId>, r: Relay)
    requires Holds(es, dead, r.tabs.values, r.tabBySession)
    ensures Routed(r) && StaleFree(r)
  {
    forall t | ConnectedTab(r, t) ensures RoutedTab(r, t) {
      var _ := Held(es, dead, r, t);
    }
    forall x | x in r.tabBySession ensures FreshEntry(r, x) {
      assert HasSession(es, dead, x);
      var i :| 0 <= i < |es| && es[i].sessionId == x && es[i].tabId !in dead;
      assert Restored(es[i], r.tabs.values, r.tabBySession);
    }
  }

  // ---------------------------------------------------------------- one event

  lemma NextKeepsInv(r: Relay, e: Event)
    requires Inv(r) && Enabled(r, e)
    ensures Inv(Next(r, e))
  {
    match e
    case Restart(saved, dead) =>
      if saved < |r.written| {
        RestartRestores(r.written[saved], dead, r.written);
      }
    case Attached(t, targetId, relayOpen) => AttachKeepsInv(r, t, targetId, relayOpen);
    case TabRemoved(t) => RemovalKeepsInv(r, t);
    case Click(t) => ClickKeepsInv(r, t);
    case DebuggerLost(t) => DropKeepsInv(r, t);
    case Detached(t) => DropKeepsInv(r, t);
    case TabReplaced(added, removed) =>
      ReplaceKeepsInv(r, added, removed);
    case Persist =>
      SaveKeepsInv(r);
    case _ =>
  }

  lemma DropKeepsInv(r: Relay, t: TabId)
    requires Inv(r)
    ensures Inv(DropTab(r, t))
  {
    var d := DropTab(r, t);
    assert forall u :: ConnectedTab(d, u) ==> ConnectedTab(r, u) && d.tabs.values[u] == r.tabs.values[u];
  }

  lemma ClickKeepsInv(r: Relay, t: TabId)
    requires Inv(r)
    ensures Inv(OnClick(r, t))
  {
    DropKeepsInv(r, t);
    var n := OnClick(r, t);
    assert forall u :: ConnectedTab(n, u) ==> ConnectedTab(r, u) && n.tabs.values[u] == r.tabs.values[u];
  }

  lemma AttachKeepsInv(r: Relay, t: TabId, targetId: string, relayOpen: bool)
    requires Inv(r) && targetId != ""
    ensures Inv(OnAttached(r, t, targetId, relayOpen))
  {
    var a := OnAttached(r, t, targetId, false);
    forall u, v | ConnectedTab(a, u) && ConnectedTab(a, v) && u != v
      ensures a.tabs.values[u].attachOrder != a.tabs.values[v].attachOrder {
      assert u != t ==> ConnectedTab(r, u) && NumberedTab(r.tabs.values[u], r.nextSession);
      assert v != t ==> ConnectedTab(r, v) && NumberedTab(r.tabs.values[v], r.nextSession);
    }
    assert Numbered(a);
    SaveKeepsInv(a);
  }

  lemma RemovalKeepsInv(r: Relay, t: TabId)
    requires Inv(r)
    ensures Inv(OnTabRemoved(r, t))
  {
    DropKeepsInv(r, t);
    var d := DropTab(r, t);
    var calm := d.(reattachPending := d.reattachPending - {t});
    assert forall u :: ConnectedTab(calm, u) ==> ConnectedTab(d, u);
    SaveKeepsInv(calm);
  }

  lemma ReplaceKeepsInv(r: Relay, added: TabId, removed: TabId)
    requires Inv(r)
    ensures Inv(OnTabReplaced(r, added, removed))
  {
    if r.tabs.Has(removed) {
      var m := Moved(r, added, removed);
      forall t, u | ConnectedTab(m, t) && ConnectedTab(m, u) && t != u
        ensures m.tabs.values[t].attachOrder != m.tabs.values[u].attachOrder {
        var t', u' := if t == added then removed else t, if u == added then removed else u;
        assert ConnectedTab(r, t') && ConnectedTab(r, u');
      }
      assert Numbered(m);
      SaveKeepsInv(m);
    }
  }

  /** A failed probe of `t` is late when the session it was sent for meanwhile belongs to another tab. */
  ghost predicate Late(r: Relay, e: Event) {
    e.ProbeFailed? && exists u :: u != e.tabId && ConnectedTab(r, u) && r.tabs.values[u].sessionId == e.sessionId
  }

  /** The events that leave a session id pointing at a tab that no longer carries it. */
  predicate Strands(r: Relay, e: Event) {
    match e
    case Attached(t, _, _) => ConnectedTab(r, t)
    case ConnectFailed(t) => ConnectedTab(r, t)
    case TabReplaced(added, removed) => r.tabs.Has(removed) && added != removed && ConnectedTab(r, added)
    case ProbeFailed(t, sid) => ConnectedTab(r, t) && r.tabs.values[t].sessionId != sid
    case _ => false
  }

  lemma DropKeepsRouted(r: Relay, t: TabId)
    requires Inv(r) && Routed(r)
    ensures Routed(DropTab(r, t)) && (StaleFree(r) ==> StaleFree(DropTab(r, t)))
  {
    var d := DropTab(r, t);
    forall u | ConnectedTab(d, u) ensures RoutedTab(d, u) {
      assert ConnectedTab(r, u) && RoutedTab(r, u);
      if ConnectedTab(r, t) {
        SessionsDistinct(r, t, u);
      }
    }
    if StaleFree(r) {
      forall s | s in d.tabBySession ensures FreshEntry(d, s) {
        assert FreshEntry(r, s);
      }
    }
  }

  lemma NewNameIsUnused(r: Relay, u: TabId)
    requires Inv(r) && ConnectedTab(r, u)
    ensures r.tabs.values[u].sessionId != SessionName(r.nextSession)
  {
    assert NumberedTab(r.tabs.values[u], r.nextSession);
    if r.tabs.values[u].sessionId == SessionName(r.nextSession) {
      NamesDiffer(r.tabs.values[u].attachOrder, r.nextSession);
    }
  }

  lemma AttachRoutes(r: Relay, t: TabId, targetId: string, relayOpen: bool)
    requires Inv(r) && Routed(r)
    ensures Routed(OnAttached(r, t, targetId, relayOpen))
  {
    var a := OnAttached(r, t, targetId, relayOpen);
    forall u | ConnectedTab(a, u) ensures RoutedTab(a, u) {
      if u != t {
        assert ConnectedTab(r, u) && RoutedTab(r, u);
        NewNameIsUnused(r, u);
      }
    }
  }

  lemma AttachStrands(r: Relay, t: TabId, targetId: string, relayOpen: bool)
    requires Inv(r) && Routed(r) && StaleFree(r)
    ensures StaleFree(OnAttached(r, t, targetId, relayOpen)) <==> !ConnectedTab(r, t)
  {
    var a := OnAttached(r, t, targetId, false);
    if ConnectedTab(r, t) {
      AttachOverStrands(r, t, targetId);
    } else {
      forall s | s in a.tabBySession ensures FreshEntry(a, s) {
        AttachedEntryIsFresh(r, t, targetId, s);
      }
    }
    SameMaps(a, OnAttached(r, t, targetId, relayOpen));
    SameMaps(OnAttached(r, t, targetId, relayOpen), a);
  }

  lemma AttachOverStrands(r: Relay, t: TabId, targetId: string)
    requires Inv(r) && Routed(r) && ConnectedTab(r, t)
    ensures !StaleFree(OnAttached(r, t, targetId, false))
  {
    assert RoutedTab(r, t);
    NewNameIsUnused(r, t);
    assert !FreshEntry(OnAttached(r, t, targetId, false), r.tabs.values[t].sessionId);
  }

  lemma AttachedEntryIsFresh(r: Relay, t: TabId, targetId: string, s: string)
    requires StaleFree(r) && !ConnectedTab(r, t)
    requires s in OnAttached(r, t, targetId, false).tabBySession
    ensures FreshEntry(OnAttached(r, t, targetId, false), s)
  {
    if s != SessionName(r.nextSession) {
      assert FreshEntry(r, s);
    }
  }

  lemma FailRoutes(r: Relay, t: TabId)
    requires Inv(r) && Routed(r)
    ensures var n := Next(r, ConnectFailed(t));
            Routed(n) && (StaleFree(r) ==> (StaleFree(n) <==> !ConnectedTab(r, t)))
  {
    var n := Next(r, ConnectFailed(t));
    forall u | ConnectedTab(n, u) ensures RoutedTab(n, u) {
      assert ConnectedTab(r, u) && RoutedTab(r, u);
    }
    if StaleFree(r) {
      if ConnectedTab(r, t) {
        assert RoutedTab(r, t);
        assert !FreshEntry(n, r.tabs.values[t].sessionId);
      } else {
        forall s | s in n.tabBySession ensures FreshEntry(n, s) {
          assert FreshEntry(r, s);
        }
      }
    }
  }

  lemma MoveRoutes(r: Relay, added: TabId, removed: TabId)
    requires Inv(r) && Routed(r) && r.tabs.Has(removed)
    ensures Routed(Moved(r, added, removed))
  {
    var m := Moved(r, added, removed);
    forall u | ConnectedTab(m, u) ensures RoutedTab(m, u) {
      var u' := if u == added then removed else u;
      assert ConnectedTab(r, u') && RoutedTab(r, u');
      if u != added && ConnectedTab(r, removed) {
        SessionsDistinct(r, u, removed);
      }
    }
  }

  lemma ReplaceRoutes(r: Relay, added: TabId, removed: TabId)
    requires Inv(r) && Routed(r)
    ensures Routed(OnTabReplaced(r, added, removed))
    ensures StaleFree(r) ==> (StaleFree(OnTabReplaced(r, added, removed)) <==>
                              !Strands(r, TabReplaced(added, removed)))
  {
    if r.tabs.Has(removed) {
      MoveRoutes(r, added, removed);
      SameMaps(Moved(r, added, removed), OnTabReplaced(r, added, removed));
      if StaleFree(r) {
        ReplaceStrands(r, added, removed);
      }
    }
  }

  lemma ReplaceStrands(r: Relay, added: TabId, removed: TabId)
    requires Inv(r) && Routed(r) && StaleFree(r) && r.tabs.Has(removed)
    ensures StaleFree(Save(Moved(r, added, removed))) <==> !(added != removed && ConnectedTab(r, added))
  {
    var m := Moved(r, added, removed);
    SameMaps(m, Save(m));
    SameMaps(Save(m), m);
    if added != removed && ConnectedTab(r, added) {
      MoveOverStrands(r, added, removed);
    } else {
      forall s | s in m.tabBySession ensures FreshEntry(m, s) {
        MovedEntryIsFresh(r, added, removed, s);
      }
    }
  }

  lemma MoveOverStrands(r: Relay, added: TabId, removed: TabId)
    requires Inv(r) && Routed(r) && r.tabs.Has(removed) && added != removed && ConnectedTab(r, added)
    ensures !StaleFree(Moved(r, added, removed))
  {
    assert RoutedTab(r, added);
    if ConnectedTab(r, removed) {
      SessionsDistinct(r, added, removed);
    }
    assert !FreshEntry(Moved(r, added, removed), r.tabs.values[added].sessionId);
  }

  lemma MovedEntryIsFresh(r: Relay, added: TabId, removed: TabId, s: string)
    requires StaleFree(r) && r.tabs.Has(removed) && !(added != removed && ConnectedTab(r, added))
    requires s in Moved(r, added, removed).tabBySession
    ensures FreshEntry(Moved(r, added, removed), s)
  {
    if s in r.tabBySession {
      assert FreshEntry(r, s);
    }
  }

  lemma ProbeRoutes(r: Relay, t: TabId, sid: string)
    requires Inv(r) && Routed(r)
    ensures var n := Next(r, ProbeFailed(t, sid));
            && (Routed(n) <==> !Late(r, ProbeFailed(t, sid)))
            && (StaleFree(r) ==> (StaleFree(n) <==> !Strands(r, ProbeFailed(t, sid))))
  {
    var e := ProbeFailed(t, sid);
    var n := Next(r, e);
    if Late(r, e) {
      var u :| u != t && ConnectedTab(r, u) && r.tabs.values[u].sessionId == sid;
      assert ConnectedTab(n, u) && !RoutedTab(n, u);
    } else {
      forall u | ConnectedTab(n, u) ensures RoutedTab(n, u) {
        assert ConnectedTab(r, u) && RoutedTab(r, u);
      }
    }
    if StaleFree(r) {
      if Strands(r, e) {
        assert RoutedTab(r, t);
        assert !FreshEntry(n, r.tabs.values[t].sessionId);
      } else {
        forall s | s in n.tabBySession ensures FreshEntry(n, s) {
          assert FreshEntry(r, s);
        }
      }
    }
  }

  /** The only event that can hide a connected tab from its session id is a failed probe that comes back after the
      session has moved to another tab. */
  lemma RoutedExactly(r: Relay, e: Event)
    requires Inv(r) && Routed(r) && Enabled(r, e)
    ensures Routed(Next(r, e)) <==> !Late(r, e)
    ensures StaleFree(r) ==> (StaleFree(Next(r, e)) <==> !Strands(r, e))
  {
    match e
    case Attached(t, targetId, relayOpen) =>
      AttachRoutes(r, t, targetId, relayOpen);
      if StaleFree(r) {
        AttachStrands(r, t, targetId, relayOpen);
      }
    case ConnectFailed(t) => FailRoutes(r, t);
    case Click(t) => ClickRoutes(r, t);
    case Detached(t) => DropKeepsRouted(r, t);
    case DebuggerLost(t) => LossRoutes(r, t);
    case TabRemoved(t) => RemovalRoutes(r, t);
    case TabReplaced(added, removed) => ReplaceRoutes(r, added, removed);
    case ProbeFailed(t, sid) => ProbeRoutes(r, t, sid);
    case Restart(saved, dead) =>
      if saved < |r.written| {
        RestartRestores(r.written[saved], dead, r.written);
      }
    case _ => SameMaps(r, Next(r, e));
  }

  lemma SameMaps(r: Relay, n: Relay)
    requires r.tabs == n.tabs && r.tabBySession == n.tabBySession
    ensures Routed(r) ==> Routed(n)
    ensures StaleFree(r) ==> StaleFree(n)
  {
    forall u | Routed(r) && ConnectedTab(n, u) ensures RoutedTab(n, u) {
      assert ConnectedTab(r, u) && RoutedTab(r, u);
    }
    forall s | StaleFree(r) && s in n.tabBySession ensures FreshEntry(n, s) {
      assert FreshEntry(r, s);
    }
  }

  lemma ClickRoutes(r: Relay, t: TabId)
    requires Inv(r) && Routed(r)
    ensures Routed(OnClick(r, t)) && (StaleFree(r) ==> StaleFree(OnClick(r, t)))
  {
    var n := OnClick(r, t);
    DropKeepsRouted(r, t);
    if n.tabs == r.tabs {
      SameMaps(r, n);
    } else if ConnectedTab(r, t) {
      SameMaps(DropTab(r, t), n);
    } else {
      forall u | ConnectedTab(n, u) ensures RoutedTab(n, u) {
        assert ConnectedTab(r, u) && RoutedTab(r, u);
      }
      forall s | StaleFree(r) && s in n.tabBySession ensures FreshEntry(n, s) {
        assert FreshEntry(r, s);
      }
    }
  }

  lemma LossRoutes(r: Relay, t: TabId)
    requires Inv(r) && Routed(r)
    ensures Routed(OnDebuggerLost(r, t)) && (StaleFree(r) ==> StaleFree(OnDebuggerLost(r, t)))
  {
    DropKeepsRouted(r, t);
    if t !in r.reattachPending {
      SameMaps(DropTab(r, t), OnDebuggerLost(r, t));
    }
  }

  lemma RemovalRoutes(r: Relay, t: TabId)
    requires Inv(r) && Routed(r)
    ensures Routed(OnTabRemoved(r, t)) && (StaleFree(r) ==> StaleFree(OnTabRemoved(r, t)))
  {
    DropKeepsRouted(r, t);
    SameMaps(if r.tabs.Has(t) then DropTab(r, t) else r, OnTabRemoved(r, t));
  }

  // ---------------------------------------------------------------- whole runs

  predicate EnabledRun(r: Relay, es: seq<Event>)
    decreases |es|
  {
    es == [] || (Enabled(r, es[0]) && EnabledRun(Next(r, es[0]), es[1..]))
  }

  function Run(r: Relay, es: seq<Event>): Relay
    requires EnabledRun(r, es)
    decreases |es|
  {
    if es == [] then r else Run(Next(r, es[0]), es[1..])
  }

  /** No failed probe of the run is late; in particular when no handler runs between a probe and its answer. */
  ghost predicate Timely(r: Relay, es: seq<Event>)
    requires EnabledRun(r, es)
    decreases |es|
  {
    es == [] || (!Late(r, es[0]) && Timely(Next(r, es[0]), es[1..]))
  }

  lemma {:induction false} RunKeeps(r: Relay, es: seq<Event>)
    requires EnabledRun(r, es) && Inv(r)
    ensures Inv(Run(r, es))
    ensures Routed(r) && Timely(r, es) ==> Routed(Run(r, es))
    decreases |es|
  {
    if es != [] {
      NextKeepsInv(r, es[0]);
      if Routed(r) && !Late(r, es[0]) {
        RoutedExactly(r, es[0]);
      }
      RunKeeps(Next(r, es[0]), es[1..]);
    }
  }

  /** In every reachable state an attached tab's session id is numbered below `nextSession`, and no other attached
      tab has it. */
  lemma AttachedTabsNeverClash(es: seq<Event>, t: TabId)
    requires EnabledRun(FirstRelay, es) && ConnectedTab(Run(FirstRelay, es), t)
    ensures var r := Run(FirstRelay, es);
            && r.tabs.values[t].sessionId == SessionName(r.tabs.values[t].attachOrder)
            && r.tabs.values[t].attachOrder < r.nextSession
            && forall u :: ConnectedTab(r, u) && u != t ==> r.tabs.values[u].sessionId != r.tabs.values[t].sessionId
  {
    RunKeeps(FirstRelay, es);
    var r := Run(FirstRelay, es);
    assert NumberedTab(r.tabs.values[t], r.nextSession);
    forall u | ConnectedTab(r, u) && u != t
      ensures r.tabs.values[u].sessionId != r.tabs.values[t].sessionId
    {
      SessionsDistinct(r, t, u);
    }
  }

  /** With timely probes a command that carries an attached tab's session id is routed to that tab, whatever child
      session or target id it also names. */
  lemma CommandsReachTheirTab(es: seq<Event>, t: TabId, child: Option<TabId>, targetId: string)
    requires EnabledRun(FirstRelay, es) && Timely(FirstRelay, es)
    requires ConnectedTab(Run(FirstRelay, es), t)
    ensures var r := Run(FirstRelay, es); Route(r, r.tabs.values[t].sessionId, child, targetId) == Some(t)
  {
    RunKeeps(FirstRelay, es);
    var r := Run(FirstRelay, es);
    assert RoutedTab(r, t) && NumberedTab(r.tabs.values[t], r.nextSession);
  }

  /** A restart undoes every mismatch, whatever happened before it and whichever snapshot it finds. */
  lemma RestartHeals(es: seq<Event>, saved: nat, dead: set<TabId>)
    requires EnabledRun(FirstRelay, es) && Enabled(Run(FirstRelay, es), Restart(saved, dead))
    ensures var r := Next(Run(FirstRelay, es), Restart(saved, dead)); Routed(r) && StaleFree(r)
  {
    RunKeeps(FirstRelay, es);
    var r := Run(FirstRelay, es);
    if saved < |r.written| {
      RestartRestores(r.written[saved], dead, r.written);
    }
  }

  lemma RunOfThree(r: Relay, e1: Event, e2: Event, e3: Event)
    requires Enabled(r, e1) && Enabled(Next(r, e1), e2) && Enabled(Next(Next(r, e1), e2), e3)
    ensures EnabledRun(r, [e1, e2, e3]) && Run(r, [e1, e2, e3]) == Next(Next(Next(r, e1), e2), e3)
  {
    var r1, r2 := Next(r, e1), Next(Next(r, e1), e2);
    var r3 := Next(r2, e3);
    assert [e3][1..] == [] && [e2, e3][1..] == [e3] && [e1, e2, e3][1..] == [e2, e3];
    assert EnabledRun(r3, []) && Run(r3, []) == r3;
    assert EnabledRun(r2, [e3]) && Run(r2, [e3]) == r3;
    assert EnabledRun(r1, [e2, e3]) && Run(r1, [e2, e3]) == r3;
  }

  function LateProbe(t: TabId, u: TabId, targetId: string): seq<Event> {
    [Attached(t, targetId, true), TabReplaced(u, t), ProbeFailed(t, SessionName(1))]
  }

  /** A late probe: tab `t` is replaced by tab `u` while it is being probed. Tab `u` stays attached, but its session
      id leads nowhere: a command that carries it falls through to the child sessions. */
  lemma LateProbeHidesATab(t: TabId, u: TabId, targetId: string, other: TabId)
    requires t != u && targetId != ""
    ensures EnabledRun(FirstRelay, LateProbe(t, u, targetId))
    ensures var r := Run(FirstRelay, LateProbe(t, u, targetId));
            && ConnectedTab(r, u) && r.tabs.values[u].sessionId == SessionName(1)
            && Route(r, SessionName(1), Some(other), "") == Some(other)
  {
    RunOfThree(FirstRelay, Attached(t, targetId, true), TabReplaced(u, t), ProbeFailed(t, SessionName(1)));
    LateProbeSteps(t, u, targetId);
  }

  lemma LateProbeSteps(t: TabId, u: TabId, targetId: string)
    requires t != u
    ensures var c := OnTabReplaced(OnAttached(FirstRelay, t, targetId, true), u, t);
            var r := c.(tabs := Remove(c.tabs, t), tabBySession := c.tabBySession - {SessionName(1)});
            && u in r.tabs.values && r.tabs.values[u] == Connected(SessionName(1), targetId, 1)
            && SessionName(1) !in r.tabBySession
  {
    var a := OnAttached(FirstRelay, t, targetId, true);
    assert a.tabs.values[t] == Connected(SessionName(1), targetId, 1);
  }
}
