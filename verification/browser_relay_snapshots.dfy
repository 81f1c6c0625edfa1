/** What a saved snapshot holds, which events save one, and that a restart which finds the last snapshot brings every
    attached tab back. */
module BrowserRelaySnapshots {
  import opened JsMaps
  import opened BrowserRelays
  import opened BrowserRelayProperties

  // ---------------------------------------------------------------- the snapshot

  /** A connected tab with both ids. */
  predicate Saveable(tabs: map<TabId, Tab>, t: TabId) {
    t in tabs && tabs[t].Connected? && tabs[t].sessionId != "" && tabs[t].targetId != ""
  }

  /** The entry is the record of a saveable tab. */
  predicate RecordOf(e: Entry, tabs: map<TabId, Tab>) {
    Saveable(tabs, e.tabId) && tabs[e.tabId] == Connected(e.sessionId, e.targetId, e.attachOrder)
  }

  /** An entry for each saveable tab, and nothing else. */
  ghost predicate RecordsAll(es: seq<Entry>, tabs: map<TabId, Tab>) {
    && (forall i :: 0 <= i < |es| ==> RecordOf(es[i], tabs))
    && (forall t :: Saveable(tabs, t) ==> exists i :: 0 <= i < |es| && es[i].tabId == t)
    && (forall i, j :: 0 <= i < j < |es| ==> es[i].tabId != es[j].tabId)
  }

  ghost predicate Describes(s: Snapshot, r: Relay) {
    RecordsAll(s.entries, r.tabs.values) && s.nextSession == r.nextSession
  }

  ghost predicate RecordsFirst(es: seq<Entry>, order: seq<TabId>, tabs: map<TabId, Tab>) {
    && (forall i :: 0 <= i < |es| ==> RecordOf(es[i], tabs) && es[i].tabId in order)
    && (forall t :: t in order && Saveable(tabs, t) ==> exists i :: 0 <= i < |es| && es[i].tabId == t)
    && (forall i, j :: 0 <= i < j < |es| ==> es[i].tabId != es[j].tabId)
  }

  lemma {:induction false} EntriesRecord(order: seq<TabId>, tabs: map<TabId, Tab>)
    requires Distinct(order) && forall t :: t in order ==> t in tabs
    ensures RecordsFirst(EntriesOf(order, tabs), order, tabs)
  {
    if order != [] {
      var n := |order| - 1;
      assert Distinct(order[..n]) && order[n] !in order[..n];
      EntriesRecord(order[..n], tabs);
      EntriesRecordMore(order, tabs);
    }
  }

  lemma EntriesRecordMore(order: seq<TabId>, tabs: map<TabId, Tab>)
    requires order != [] && (forall t :: t in order ==> t in tabs) && order[|order| - 1] !in order[..|order| - 1]
    requires RecordsFirst(EntriesOf(order[..|order| - 1], tabs), order[..|order| - 1], tabs)
    ensures RecordsFirst(EntriesOf(order, tabs), order, tabs)
  {
    var n := |order| - 1;
    var before, es := EntriesOf(order[..n], tabs), EntriesOf(order, tabs);
    assert order == order[..n] + [order[n]];
    forall t | t in order && Saveable(tabs, t)
      ensures exists i :: 0 <= i < |es| && es[i].tabId == t
    {
      if t == order[n] {
        assert es[|before|].tabId == t;
      } else {
        var i :| 0 <= i < |before| && before[i].tabId == t;
        assert es[i] == before[i];
      }
    }
  }

  /** Saving appends one snapshot, which holds an entry for every connected tab with both ids, with that tab's ids and
      its place in the attach order, and nothing else; and changes nothing else. */
  lemma SaveDescribes(r: Relay)
    ensures Save(r) == r.(written := Save(r).written) && |Save(r).written| == |r.written| + 1
    ensures Save(r).written[..|r.written|] == r.written
    ensures Describes(Save(r).written[|r.written|], r) && Describes(Save(r).written[|r.written|], Save(r))
  {
    EntriesRecord(r.tabs.order, r.tabs.values);
    var es := EntriesOf(r.tabs.order, r.tabs.values);
    assert forall t :: t in r.tabs.order <==> t in r.tabs.values;
    assert RecordsAll(es, r.tabs.values);
  }

  // ---------------------------------------------------------------- which events save

  predicate Saves(r: Relay, e: Event) {
    match e
    case Persist => true
    case Attached(_, _, relayOpen) => relayOpen
    case TabRemoved(t) => r.tabs.Has(t)
    case TabReplaced(_, removed) => r.tabs.Has(removed)
    case _ => false
  }

  /** Exactly those events save, each a description of the state it leaves. */
  lemma SavesExactly(r: Relay, e: Event)
    requires Enabled(r, e)
    ensures var n := Next(r, e);
            if Saves(r, e)
            then |n.written| == |r.written| + 1 && n.written[..|r.written|] == r.written
                 && Describes(n.written[|r.written|], n)
            else n.written == r.written
  {
    hide Describes, EntriesOf;
    match e {
      case Persist => SaveDescribes(r);
      case Attached(t, targetId, relayOpen) => SaveDescribes(OnAttached(r, t, targetId, false));
      case TabRemoved(t) => SaveDescribes(DropTab(r.(reattachPending := r.reattachPending - {t}), t));
      case TabReplaced(added, removed) =>
        if r.tabs.Has(removed) {
          SaveDescribes(Moved(r, added, removed));
        }
      case _ =>
    }
  }

  // ---------------------------------------------------------------- restarting from the last snapshot

  /** n has exactly r's connected tabs outside `dead`, as they were, and goes on numbering where r stopped. */
  ghost predicate BringsBack(r: Relay, dead: set<TabId>, n: Relay) {
    && (forall t :: n.tabs.Has(t) <==> ConnectedTab(r, t) && t !in dead)
    && (forall t :: n.tabs.Has(t) ==> n.tabs.values[t] == r.tabs.values[t])
    && n.nextSession == r.nextSession
  }

  lemma HeldIsBack(r: Relay, s: Snapshot, dead: set<TabId>, written: seq<Snapshot>)
    requires Inv(r) && r.nextSession >= 1 && GoodSnapshot(s) && Describes(s, r)
    ensures BringsBack(r, dead, Rehydrate(s, dead, written))
  {
    RehydrateHolds(s, dead, written);
    var n := Rehydrate(s, dead, written);
    forall t
      ensures n.tabs.Has(t) <==> ConnectedTab(r, t) && t !in dead
      ensures n.tabs.Has(t) ==> n.tabs.values[t] == r.tabs.values[t]
    {
      if n.tabs.Has(t) {
        TabCameBack(r, s, dead, n, t);
      }
      if ConnectedTab(r, t) && t !in dead {
        TabComesBack(r, s, dead, n, t);
      }
    }
  }

  lemma TabCameBack(r: Relay, s: Snapshot, dead: set<TabId>, n: Relay, t: TabId)
    requires Describes(s, r) && Holds(s.entries, dead, n.tabs.values, n.tabBySession) && n.tabs.Has(t)
    ensures ConnectedTab(r, t) && t !in dead && n.tabs.values[t] == r.tabs.values[t]
  {
    assert HasTab(s.entries, dead, t);
    var i :| 0 <= i < |s.entries| && s.entries[i].tabId == t && t !in dead;
    assert Restored(s.entries[i], n.tabs.values, n.tabBySession);
    assert RecordOf(s.entries[i], r.tabs.values);
  }

  lemma TabComesBack(r: Relay, s: Snapshot, dead: set<TabId>, n: Relay, t: TabId)
    requires Numbered(r) && Describes(s, r) && Holds(s.entries, dead, n.tabs.values, n.tabBySession)
    requires ConnectedTab(r, t) && t !in dead
    ensures n.tabs.Has(t)
  {
    assert NumberedTab(r.tabs.values[t], r.nextSession);
    assert Saveable(r.tabs.values, t);
    var i :| 0 <= i < |s.entries| && s.entries[i].tabId == t;
    assert Restored(s.entries[i], n.tabs.values, n.tabBySession);
  }

  lemma {:induction false} NumbersFromOne(r: Relay, es: seq<Event>)
    requires EnabledRun(r, es) && r.nextSession >= 1
    ensures Run(r, es).nextSession >= 1
    decreases |es|
  {
    if es != [] {
      NumbersFromOne(Next(r, es[0]), es[1..]);
    }
  }

  /** Whatever happened before, a restart that finds what the last saving event left brings back exactly the connected
      tabs that are still alive, under their old session ids, and goes on numbering where the old worker stopped. */
  lemma RestartAfterSave(es: seq<Event>, e: Event, dead: set<TabId>)
    requires EnabledRun(FirstRelay, es) && Enabled(Run(FirstRelay, es), e) && Saves(Run(FirstRelay, es), e)
    ensures var r := Next(Run(FirstRelay, es), e);
            && Enabled(r, Restart(|r.written| - 1, dead))
            && BringsBack(r, dead, Next(r, Restart(|r.written| - 1, dead)))
            && Routed(Next(r, Restart(|r.written| - 1, dead)))
  {
    hide Describes, Inv, EnabledRun, Run, Saves, Routed, BringsBack, Rehydrate, Next, Enabled;
    var before := Run(FirstRelay, es);
    RunKeeps(FirstRelay, es);
    NumbersFromOne(FirstRelay, es);
    NextKeepsInv(before, e);
    SavesExactly(before, e);
    NextNumber(before, e);
    RestartFromLast(Next(before, e), dead);
  }

  lemma RestartFromLast(r: Relay, dead: set<TabId>)
    requires Inv(r) && r.nextSession >= 1 && r.written != [] && Describes(r.written[|r.written| - 1], r)
    ensures Enabled(r, Restart(|r.written| - 1, dead))
    ensures var n := Next(r, Restart(|r.written| - 1, dead)); BringsBack(r, dead, n) && Routed(n)
  {
    hide Describes, Inv, Routed, BringsBack, Rehydrate;
    LastIsGood(r);
    HeldIsBack(r, r.written[|r.written| - 1], dead, r.written);
    RestartRestores(r.written[|r.written| - 1], dead, r.written);
  }

  lemma NextNumber(r: Relay, e: Event)
    requires Enabled(r, e) && r.nextSession >= 1
    ensures Next(r, e).nextSession >= 1
  {
  }

  lemma LastIsGood(r: Relay)
    requires Inv(r) && r.written != []
    ensures GoodSnapshot(r.written[|r.written| - 1])
  {
  }
}
