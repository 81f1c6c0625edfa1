/** Which outcome a relay reports, told by the events alone, and when it reports a silence. */
module ParentStreamOutcomes {
  import opened Utf16
  import opened ParentStreams
  import opened ParentStreamProperties

  // ---------------------------------------------------------------- the outcome

  predicate Closing(e: Event) {
    e.End? || e.Error? || e.LifetimeTimer? || e.Dispose?
  }

  /** What a relay says when this event closes it. */
  function OutcomeOf(e: Event): seq<Record> {
    match e
    case End => [RunCompleted]
    case Error => [RunFailed]
    case LifetimeTimer => [RunTimedOut]
    case _ => []
  }

  /** The outcome that belongs to the first closing event. */
  function Verdict(es: seq<Event>): seq<Record> {
    if es == [] then [] else if Closing(es[0]) then OutcomeOf(es[0]) else Verdict(es[1..])
  }

  predicate FirstClosing(es: seq<Event>, i: int) {
    0 <= i < |es| && Closing(es[i]) && forall j :: 0 <= j < i ==> !Closing(es[j])
  }

  lemma {:induction false} VerdictIs(es: seq<Event>, i: int)
    requires FirstClosing(es, i)
    ensures Verdict(es) == OutcomeOf(es[i])
  {
    if i > 0 {
      assert !Closing(es[0]);
      assert forall j :: 0 <= j < |es| - 1 ==> es[1..][j] == es[j + 1];
      VerdictIs(es[1..], i - 1);
    }
  }

  lemma {:induction false} VerdictHas(es: seq<Event>)
    ensures Verdict(es) == [] || exists i :: FirstClosing(es, i) && Verdict(es) == OutcomeOf(es[i])
  {
    if es != [] {
      if Closing(es[0]) {
        assert FirstClosing(es, 0);
      } else {
        VerdictHas(es[1..]);
        if Verdict(es[1..]) != [] {
          var i :| FirstClosing(es[1..], i) && Verdict(es[1..]) == OutcomeOf(es[1..][i]);
          assert es[1..][i] == es[i + 1];
          assert forall j :: 1 <= j < i + 1 ==> es[j] == es[1..][j - 1];
          assert FirstClosing(es, i + 1);
        }
      }
    }
  }

  lemma StepOutcome(c: Config, s: Stream, e: Event)
    requires Inv(c, s) && Enabled(s, e)
    ensures var n := Next(c, s, e);
            && n.disposed == (s.disposed || Closing(e))
            && Recorded(n.records) == if s.disposed || !Closing(e) then Recorded(s.records) else OutcomeOf(e)
  {
    hide PhaseOf, Announced, QuietAfterEnd, Snippet, Flushed, Recorded, LastPart, HasParagraphBreak, Blank;
    match e {
      case Delta(text, now) =>
        AppendRecord(s.records, ResumedOutput);
      case End => AppendRecord(s.records, RunCompleted);
      case Error => AppendRecord(s.records, RunFailed);
      case LifetimeTimer => AppendRecord(s.records, RunTimedOut);
      case WatchTick(_) => AppendRecord(s.records, NoOutput);
      case NotifyStarted => AppendRecord(s.records, StartRecorded);
      case _ =>
    }
  }

  lemma {:induction false} RunOutcome(c: Config, s: Stream, es: seq<Event>)
    requires Inv(c, s) && EnabledRun(c, s, es)
    ensures Recorded(Run(c, s, es).records) == if s.disposed then Recorded(s.records) else Verdict(es)
    decreases |es|
  {
    hide Inv, Next, Recorded;
    if es == [] {
      OpenHasNone(c, s);
    } else {
      OpenHasNone(c, s);
      StepOutcome(c, s, es[0]);
      NextKeepsInv(c, s, es[0]);
      RunOutcome(c, Next(c, s, es[0]), es[1..]);
    }
  }

  lemma OpenHasNone(c: Config, s: Stream)
    requires Inv(c, s)
    ensures !s.disposed ==> Recorded(s.records) == []
  {
  }

  /** After any run, the outcomes announced and those recorded are the same, and they are a completion, a failure or a
      time-out exactly when the first closing event of the run is an end, an error or the lifetime timer. */
  lemma OutcomeExactly(c: Config, now: int, startNotice: bool, es: seq<Event>)
    requires EnabledRun(c, Begin(now, startNotice), es)
    ensures var s := Run(c, Begin(now, startNotice), es);
            && Announced(s.notices) == Recorded(s.records) && |Recorded(s.records)| <= 1
            && (Recorded(s.records) == [RunCompleted] <==> exists i :: FirstClosing(es, i) && es[i].End?)
            && (Recorded(s.records) == [RunFailed] <==> exists i :: FirstClosing(es, i) && es[i].Error?)
            && (Recorded(s.records) == [RunTimedOut] <==> exists i :: FirstClosing(es, i) && es[i].LifetimeTimer?)
            && (Recorded(s.records) == [] <==> forall i :: FirstClosing(es, i) ==> es[i].Dispose?)
  {
    hide EnabledRun, Run, Recorded, Announced, PhaseOf, QuietAfterEnd;
    BeginInv(c, now, startNotice);
    RunKeepsInv(c, Begin(now, startNotice), es);
    RunOutcome(c, Begin(now, startNotice), es);
    VerdictExactly(es);
  }

  lemma VerdictExactly(es: seq<Event>)
    ensures Verdict(es) == [RunCompleted] <==> exists i :: FirstClosing(es, i) && es[i].End?
    ensures Verdict(es) == [RunFailed] <==> exists i :: FirstClosing(es, i) && es[i].Error?
    ensures Verdict(es) == [RunTimedOut] <==> exists i :: FirstClosing(es, i) && es[i].LifetimeTimer?
    ensures Verdict(es) == [] <==> forall i :: FirstClosing(es, i) ==> es[i].Dispose?
  {
    hide Verdict;
    VerdictHas(es);
    forall i | FirstClosing(es, i)
      ensures Verdict(es) == OutcomeOf(es[i])
    {
      VerdictIs(es, i);
    }
    if Verdict(es) != [] {
      var i :| FirstClosing(es, i) && Verdict(es) == OutcomeOf(es[i]);
      assert !es[i].Dispose?;
    }
  }

  // ---------------------------------------------------------------- timers

  predicate Open(es: seq<Event>) {
    forall i :: 0 <= i < |es| ==> !Closing(es[i])
  }

  lemma {:induction false} RunClosed(c: Config, s: Stream, es: seq<Event>)
    ensures Run(c, s, es).disposed <==> s.disposed || !Open(es)
    decreases |es|
  {
    hide Next;
    if es != [] {
      StepHeard(c, s, es[0]);
      RunClosed(c, Next(c, s, es[0]), es[1..]);
      assert Open(es) <==> !Closing(es[0]) && Open(es[1..]) by {
        assert forall i :: 0 < i < |es| ==> es[i] == es[1..][i - 1];
        assert forall i :: 0 <= i < |es| - 1 ==> es[1..][i] == es[i + 1];
      }
    }
  }

  /** After any run the watcher and the lifetime timer can fire exactly while no closing event has come, the flush timer
      exactly while moreover text waits and flushing by time is on; everything else can always happen. */
  lemma TimersExactly(c: Config, now: int, startNotice: bool, es: seq<Event>, e: Event)
    requires EnabledRun(c, Begin(now, startNotice), es)
    ensures var s := Run(c, Begin(now, startNotice), es);
            Enabled(s, e) <==>
            match e
            case FlushTimer => Open(es) && c.flushMs > 0 && s.pendingText != []
            case WatchTick(_) => Open(es)
            case LifetimeTimer => Open(es)
            case _ => true
  {
    hide EnabledRun, Run, PhaseOf, Announced, Recorded, QuietAfterEnd, Open;
    var b := Begin(now, startNotice);
    BeginInv(c, now, startNotice);
    RunKeepsInv(c, b, es);
    RunClosed(c, b, es);
  }

  // ---------------------------------------------------------------- silence

  /** When text was last accepted: blank deltas and those behind a closing event do not count. */
  function LastHeard(since: int, es: seq<Event>): int
    decreases |es|
  {
    if es == [] || Closing(es[0]) then since
    else if es[0].Delta? && !Blank(es[0].text) then LastHeard(es[0].now, es[1..])
    else LastHeard(since, es[1..])
  }

  lemma StepHeard(c: Config, s: Stream, e: Event)
    ensures Next(c, s, e).lastProgressAt ==
            if !s.disposed && e.Delta? && !Blank(e.text) then e.now else s.lastProgressAt
    ensures Next(c, s, e).disposed == (s.disposed || Closing(e))
  {
    hide Blank, Snippet, Flushed, LastPart, HasParagraphBreak;
  }

  lemma {:induction false} RunHeard(c: Config, s: Stream, es: seq<Event>)
    ensures Run(c, s, es).lastProgressAt == if s.disposed then s.lastProgressAt else LastHeard(s.lastProgressAt, es)
    decreases |es|
  {
    hide Next;
    if es != [] {
      StepHeard(c, s, es[0]);
      RunHeard(c, Next(c, s, es[0]), es[1..]);
    }
  }

  /** After any run a tick of the watcher announces a stall exactly when notices are wanted, none has been given since
      output last resumed, and nothing was heard for the whole notice delay; it does nothing else. */
  lemma StallExactly(c: Config, start: int, startNotice: bool, es: seq<Event>, now: int)
    requires EnabledRun(c, Begin(start, startNotice), es)
    requires Enabled(Run(c, Begin(start, startNotice), es), WatchTick(now))
    ensures var s := Run(c, Begin(start, startNotice), es);
            var n := Next(c, s, WatchTick(now));
            if c.noOutputMs > 0 && PhaseOf(s.notices) == Flowing && now - LastHeard(start, es) >= c.noOutputMs
            then n.notices == s.notices + [Stalled] && n.records == s.records + [NoOutput]
            else n == s
  {
    hide EnabledRun, Run, PhaseOf, Announced, Recorded, QuietAfterEnd, LastHeard;
    var b := Begin(start, startNotice);
    BeginInv(c, start, startNotice);
    RunKeepsInv(c, b, es);
    RunHeard(c, b, es);
  }

  // ---------------------------------------------------------------- what is shown when

  /** An accepted delta is shown at once, together with all that was buffered, exactly when it holds a blank line or
      the buffer reaches the size of a snippet; otherwise it is buffered whole. */
  lemma ShownAtOnceExactly(c: Config, s: Stream, text: Text16, now: int)
    requires Inv(c, s) && !s.disposed && !Blank(text)
    ensures var n := Next(c, s, Delta(text, now));
            var blankLine := exists i :: 0 <= i < |text| - 1 && text[i] == NEWLINE && text[i + 1] == NEWLINE;
            if blankLine || |s.pendingText + text| >= 220
            then n.pendingText == [] && Emitted(n.notices)
                   == Emitted(s.notices) + Visible(Snippet(LastPart(s.pendingText + text, 4000)))
            else n.pendingText == s.pendingText + text && Emitted(n.notices) == Emitted(s.notices)
  {
    hide Inv, Emitted, Snippet;
    DeltaShows(c, s, text, now);
  }

  /** Every run: a snippet that is shown is not empty and has at most 220 units, and as many start notices are given as
      were asked for. */
  lemma EveryNotice(c: Config, now: int, startNotice: bool, es: seq<Event>)
    ensures var s := Run(c, Begin(now, startNotice), es);
            && (forall i :: 0 <= i < |s.notices| && s.notices[i].Progress? ==> 0 < |s.notices[i].snippet| <= 220)
            && StartNotices(s.notices) == (if startNotice then 1 else 0) + Starts(es)
  {
    var b := Begin(now, startNotice);
    if startNotice {
      StartsAppend([], Started);
      assert [] + [Started] == [Started];
    }
    RunNotices(c, b, es);
  }

  function StartNotices(ns: seq<Notice>): nat {
    if ns == [] then 0 else StartNotices(ns[..|ns| - 1]) + if ns[|ns| - 1].Started? then 1 else 0
  }

  lemma StartsAppend(ns: seq<Notice>, n: Notice)
    ensures StartNotices(ns + [n]) == StartNotices(ns) + if n.Started? then 1 else 0
  {
    assert (ns + [n])[..|ns|] == ns;
  }

  predicate FitSnippets(ns: seq<Notice>) {
    forall i :: 0 <= i < |ns| && ns[i].Progress? ==> 0 < |ns[i].snippet| <= 220
  }

  lemma {:induction false} RunNotices(c: Config, s: Stream, es: seq<Event>)
    requires FitSnippets(s.notices)
    ensures var n := Run(c, s, es);
            FitSnippets(n.notices) && StartNotices(n.notices) == StartNotices(s.notices) + Starts(es)
    decreases |es|
  {
    hide Next, FitSnippets;
    if es != [] {
      StepNotices(c, s, es[0]);
      RunNotices(c, Next(c, s, es[0]), es[1..]);
    }
  }

  lemma StepNotices(c: Config, s: Stream, e: Event)
    requires FitSnippets(s.notices)
    ensures var n := Next(c, s, e);
            && FitSnippets(n.notices)
            && StartNotices(n.notices) == StartNotices(s.notices) + if e.NotifyStarted? then 1 else 0
  {
    hide FitSnippets, StartNotices, Snippet, Blank, HasParagraphBreak, LastPart, Flushed;
    match e {
      case Delta(text, now) =>
        if !s.disposed && !Blank(text) {
          DeltaNotices(c, s, text, now);
        }
      case End => EndNotices(s, Done);
      case Error => EndNotices(s, Failed);
      case FlushTimer => FlushNotices(s.notices, s.pendingText);
      case WatchTick(_) => NoticeAdded(s.notices, Stalled);
      case LifetimeTimer => NoticeAdded(s.notices, TimedOut);
      case Dispose =>
      case NotifyStarted => NoticeAdded(s.notices, Started);
    }
  }

  lemma NoticeAdded(ns: seq<Notice>, n: Notice)
    requires FitSnippets(ns) && (n.Progress? ==> 0 < |n.snippet| <= 220)
    ensures FitSnippets(ns + [n]) && StartNotices(ns + [n]) == StartNotices(ns) + if n.Started? then 1 else 0
  {
    StartsAppend(ns, n);
  }

  lemma FlushNotices(ns: seq<Notice>, pending: Text16)
    requires FitSnippets(ns)
    ensures FitSnippets(ns + Flushed(pending)) && StartNotices(ns + Flushed(pending)) == StartNotices(ns)
  {
    if Snippet(pending) == [] {
      assert ns + [] == ns;
    } else {
      NoticeAdded(ns, Progress(Snippet(pending)));
    }
  }

  lemma EndNotices(s: Stream, n: Notice)
    requires FitSnippets(s.notices) && (n.Done? || n.Failed?)
    ensures var ns := s.notices + Flushed(s.pendingText) + [n];
            FitSnippets(ns) && StartNotices(ns) == StartNotices(s.notices)
  {
    FlushNotices(s.notices, s.pendingText);
    NoticeAdded(s.notices + Flushed(s.pendingText), n);
  }

  lemma DeltaNotices(c: Config, s: Stream, text: Text16, now: int)
    requires FitSnippets(s.notices) && !s.disposed && !Blank(text)
    ensures var n := OnDelta(c, s, text, now);
            FitSnippets(n.notices) && StartNotices(n.notices) == StartNotices(s.notices)
  {
    hide FitSnippets, StartNotices, Snippet, Blank, HasParagraphBreak, LastPart, Flushed;
    var b := Buffered(s, text, now);
    NoticeAdded(s.notices, Resumed);
    FlushNotices(b.notices, b.pendingText);
  }

  /** A text that fits is shown as it is; any other is cut to the limit, the last place taken by an ellipsis if there
      are at least two. */
  lemma TruncatedTo(s: Text16, max: nat)
    ensures var r := Truncate(s, max);
            && (|s| <= max ==> r == s)
            && (|s| > max ==> |r| == max && forall i :: 0 <= i < max ==>
                  r[i] == if i == max - 1 && max >= 2 then ELLIPSIS else s[i])
  {
  }
}
