/** What each event does to a tab, and when the button is ignored. */
module BrowserRelayOperations {
  import opened JsMaps
  import opened BrowserRelays
  import opened BrowserRelayProperties

  // ---------------------------------------------------------------- one operation at a time

  predicate Ends(e: Event, t: TabId) {
    e == ClickDone(t) || e.Restart?
  }

  /** A click on t whose operation is still under way. */
  predicate Underway(es: seq<Event>, t: TabId, i: int) {
    0 <= i < |es| && es[i] == Click(t) && forall j :: i < j < |es| ==> !Ends(es[j], t)
  }

  predicate Undisturbed(es: seq<Event>, t: TabId) {
    forall j :: 0 <= j < |es| ==> !Ends(es[j], t)
  }

  lemma StepLock(r: Relay, e: Event, t: TabId)
    requires Enabled(r, e)
    ensures t in Next(r, e).locks <==> e == Click(t) || (t in r.locks && !Ends(e, t))
  {
  }

  lemma UndisturbedLater(e: Event, es: seq<Event>, t: TabId)
    ensures Undisturbed([e] + es, t) <==> !Ends(e, t) && Undisturbed(es, t)
    ensures Underway([e] + es, t, 0) <==> e == Click(t) && Undisturbed(es, t)
  {
    var all := [e] + es;
    assert all[0] == e;
    assert forall j :: 0 <= j < |es| ==> es[j] == all[j + 1];
    assert forall j :: 0 < j < |all| ==> all[j] == es[j - 1];
  }

  lemma UnderwayShift(e: Event, es: seq<Event>, t: TabId, i: int)
    requires i >= 0
    ensures Underway([e] + es, t, i + 1) <==> Underway(es, t, i)
  {
    var all := [e] + es;
    assert forall j :: 0 <= j < |es| ==> es[j] == all[j + 1];
    assert forall j :: 0 < j < |all| ==> all[j] == es[j - 1];
  }

  lemma UnderwayLater(e: Event, es: seq<Event>, t: TabId)
    ensures (exists i :: Underway([e] + es, t, i)) <==>
            (e == Click(t) && Undisturbed(es, t)) || exists i :: Underway(es, t, i)
    ensures Undisturbed([e] + es, t) <==> !Ends(e, t) && Undisturbed(es, t)
  {
    hide Underway, Undisturbed;
    UndisturbedLater(e, es, t);
    forall i | Underway([e] + es, t, i)
      ensures i == 0 || Underway(es, t, i - 1)
    {
      NotNegative([e] + es, t, i);
      if i > 0 {
        UnderwayShift(e, es, t, i - 1);
      }
    }
    forall i | Underway(es, t, i)
      ensures Underway([e] + es, t, i + 1)
    {
      NotNegative(es, t, i);
      UnderwayShift(e, es, t, i);
    }
  }

  lemma NotNegative(es: seq<Event>, t: TabId, i: int)
    ensures Underway(es, t, i) ==> i >= 0
  {
  }

  lemma {:induction false} RunLock(r: Relay, es: seq<Event>, t: TabId)
    requires EnabledRun(r, es)
    ensures t in Run(r, es).locks <==> (t in r.locks && Undisturbed(es, t)) || exists i :: Underway(es, t, i)
    decreases |es|
  {
    hide Next, Enabled, Ends, Underway, Undisturbed;
    if es == [] {
      NothingUnderway(t);
    } else {
      StepLock(r, es[0], t);
      RunLock(Next(r, es[0]), es[1..], t);
      UnderwayLater(es[0], es[1..], t);
      assert es == [es[0]] + es[1..];
    }
  }

  lemma NothingUnderway(t: TabId)
    ensures Undisturbed([], t) && forall i :: !Underway([], t, i)
  {
  }

  /** After any run a tab is locked exactly while a click on it is under way, and then another click does nothing. */
  lemma OneOperationAtATime(es: seq<Event>, t: TabId)
    requires EnabledRun(FirstRelay, es)
    ensures t in Run(FirstRelay, es).locks <==> exists i :: Underway(es, t, i)
    ensures (exists i :: Underway(es, t, i)) ==> Next(Run(FirstRelay, es), Click(t)) == Run(FirstRelay, es)
  {
    hide Underway, Undisturbed;
    RunLock(FirstRelay, es, t);
  }

  // ---------------------------------------------------------------- re-attachment

  /** A tab waits for re-attachment from the loss of its debugger until the attempt ends, the tab is removed, the relay
      closes, the worker restarts, or a click calls it off. */
  lemma WaitsExactly(r: Relay, e: Event, t: TabId)
    requires Enabled(r, e)
    ensures t in Next(r, e).reattachPending <==>
            || e == DebuggerLost(t)
            || (&& t in r.reattachPending && e != ReattachEnded(t) && e != TabRemoved(t)
                && !e.RelayClosed? && !e.Restart? && !(e == Click(t) && t !in r.locks))
  {
  }

  // ---------------------------------------------------------------- the state of a tab

  function TabOf(r: Relay, t: TabId): Option<Tab> {
    if r.tabs.Has(t) then Some(r.tabs.values[t]) else None
  }

  /** The event makes the relay forget tab t. */
  predicate Forgets(r: Relay, e: Event, t: TabId) {
    match e
    case Click(u) => u == t && t !in r.locks && t !in r.reattachPending && ConnectedTab(r, t)
    case ConnectFailed(u) => u == t
    case Detached(u) => u == t
    case DebuggerLost(u) => u == t && t !in r.reattachPending
    case TabRemoved(u) => u == t
    case TabReplaced(added, removed) => removed == t && added != t && r.tabs.Has(t)
    case ProbeFailed(u, _) => u == t
    case _ => false
  }

  /** Every event but a restart: a tab is attached under the next number, starts connecting, takes the place of another
      tab, is forgotten, or is as before. */
  lemma TabExactly(r: Relay, e: Event, t: TabId)
    requires Enabled(r, e) && !e.Restart?
    ensures TabOf(Next(r, e), t) ==
            if e.Attached? && e.tabId == t then Some(Connected(SessionName(r.nextSession), e.targetId, r.nextSession))
            else if e.TabReplaced? && e.added == t && r.tabs.Has(e.removed) then Some(r.tabs.values[e.removed])
            else if Forgets(r, e, t) then None
            else if e == Click(t) && t !in r.locks && t !in r.reattachPending then Some(Connecting)
            else TabOf(r, t)
    ensures Next(r, e).nextSession == r.nextSession + if e.Attached? then 1 else 0
  {
    hide SessionName, EntriesOf;
  }

  /** Every event but a restart: a session id leads to the tab it is given to, or nowhere if it is given up, or to where
      it led before. */
  lemma SessionExactly(r: Relay, e: Event, s: string)
    requires Enabled(r, e) && !e.Restart?
    ensures (if s in Next(r, e).tabBySession then Some(Next(r, e).tabBySession[s]) else None) ==
            if e.Attached? && s == SessionName(r.nextSession) then Some(e.tabId)
            else if e.TabReplaced? && ConnectedTab(r, e.removed) && r.tabs.values[e.removed].sessionId == s then
              Some(e.added)
            else if GivesUp(r, e, s) then None
            else if s in r.tabBySession then Some(r.tabBySession[s])
            else None
  {
    hide SessionName, EntriesOf;
  }

  /** The event takes the session id out of use: that of a connected tab that is detached by click, by Chrome or for
      good, or the one named by a failed probe. */
  predicate GivesUp(r: Relay, e: Event, s: string) {
    match e
    case Click(t) => t !in r.locks && t !in r.reattachPending && Carries(r, t, s)
    case Detached(t) => Carries(r, t, s)
    case DebuggerLost(t) => t !in r.reattachPending && Carries(r, t, s)
    case TabRemoved(t) => Carries(r, t, s)
    case ProbeFailed(_, sid) => sid == s
    case _ => false
  }

  predicate Carries(r: Relay, t: TabId, s: string) {
    ConnectedTab(r, t) && r.tabs.values[t].sessionId == s
  }

  // ---------------------------------------------------------------- commands without a known session

  /** The tab is the first, in the order in which tabs became known, that satisfies the test. */
  ghost predicate IsFirst(order: seq<TabId>, test: TabId -> bool, t: TabId) {
    exists i :: 0 <= i < |order| && order[i] == t && test(t) && forall j :: 0 <= j < i ==> !test(order[j])
  }

  lemma {:induction false} FirstConnectedIs(order: seq<TabId>, tabs: map<TabId, Tab>, t: TabId)
    requires forall u :: u in order ==> u in tabs
    ensures FirstConnected(order, tabs) == Some(t) <==> IsFirst(order, u => u in tabs && tabs[u].Connected?, t)
  {
    var test := u => u in tabs && tabs[u].Connected?;
    if order != [] {
      FirstConnectedIs(order[1..], tabs, t);
      FirstLater(order, test, t);
    }
  }

  lemma {:induction false} FirstWithTargetIs(order: seq<TabId>, tabs: map<TabId, Tab>, targetId: string, t: TabId)
    requires forall u :: u in order ==> u in tabs
    ensures FirstWithTarget(order, tabs, targetId) == Some(t) <==>
            IsFirst(order, u => u in tabs && tabs[u].Connected? && tabs[u].targetId == targetId, t)
  {
    var test := u => u in tabs && tabs[u].Connected? && tabs[u].targetId == targetId;
    if order != [] {
      FirstWithTargetIs(order[1..], tabs, targetId, t);
      FirstLater(order, test, t);
    }
  }

  lemma FirstLater(order: seq<TabId>, test: TabId -> bool, t: TabId)
    requires order != []
    ensures IsFirst(order, test, t) <==> if test(order[0]) then t == order[0] else IsFirst(order[1..], test, t)
  {
    var rest := order[1..];
    if i :| 0 <= i < |order| && order[i] == t && test(t) && forall j :: 0 <= j < i ==> !test(order[j]) {
      if i > 0 {
        assert rest[i - 1] == t;
        assert forall j :: 0 <= j < i - 1 ==> rest[j] == order[j + 1];
      }
    }
    if i :| 0 <= i < |rest| && rest[i] == t && test(t) && forall j :: 0 <= j < i ==> !test(rest[j]) {
      assert order[i + 1] == t;
      assert forall j :: 0 < j < i + 1 ==> order[j] == rest[j - 1];
    }
  }

  /** A command whose session id is not known goes through its child session if it has one, else to the first connected
      tab with its target, else to the first connected tab; with a known session id it goes to that session's tab. */
  lemma RoutesExactly(r: Relay, sessionId: string, child: Option<TabId>, targetId: string, t: TabId)
    ensures Route(r, sessionId, child, targetId) == Some(t) <==>
            if sessionId != "" && sessionId in r.tabBySession then r.tabBySession[sessionId] == t
            else if sessionId != "" && child.Some? then child.value == t
            else if targetId != "" && exists u :: ConnectedTab(r, u) && r.tabs.values[u].targetId == targetId
            then
              IsFirst(r.tabs.order, u => u in r.tabs.values && r.tabs.values[u].Connected?
                                         && r.tabs.values[u].targetId == targetId, t)
            else IsFirst(r.tabs.order, u => u in r.tabs.values && r.tabs.values[u].Connected?, t)
  {
    hide IsFirst;
    FirstConnectedIs(r.tabs.order, r.tabs.values, t);
    FirstWithTargetIs(r.tabs.order, r.tabs.values, targetId, t);
    SomeTarget(r.tabs.order, r.tabs.values, targetId);
    assert forall u :: u in r.tabs.order <==> u in r.tabs.values;
  }

  lemma {:induction false} SomeTarget(order: seq<TabId>, tabs: map<TabId, Tab>, targetId: string)
    requires forall u :: u in order ==> u in tabs
    ensures FirstWithTarget(order, tabs, targetId).Some? <==>
            exists u :: u in order && tabs[u].Connected? && tabs[u].targetId == targetId
  {
    if order != [] {
      SomeTarget(order[1..], tabs, targetId);
      assert forall u :: u in order <==> u == order[0] || u in order[1..];
    }
  }
}
