/** What the relay keeps for every order of deltas, lifecycle events and timers: no text waits without a timer, stall
    and resumption alternate, one closing notice, and exactly which deltas lose text. */
module ParentStreamProperties {
  import Texts
  import opened Utf16
  import opened ParentStreams

  // ---------------------------------------------------------------- reading the logs

  datatype Phase = Flowing | Stuck | OutOfOrder

  function PhaseStep(p: Phase, n: Notice): Phase {
    if n.Stalled? then (if p == Flowing then Stuck else OutOfOrder)
    else if n.Resumed? then (if p == Stuck then Flowing else OutOfOrder)
    else p
  }

  /** Stalled and resumed notices strictly alternate, starting with a stall, unless this is `OutOfOrder`. */
  function PhaseOf(ns: seq<Notice>): Phase {
    if ns == [] then Flowing else PhaseStep(PhaseOf(ns[..|ns| - 1]), ns[|ns| - 1])
  }

  function EndOf(n: Notice): seq<Record> {
    match n
    case Done => [RunCompleted]
    case Failed => [RunFailed]
    case TimedOut => [RunTimedOut]
    case _ => []
  }

  /** The outcomes announced to the parent. */
  function Announced(ns: seq<Notice>): seq<Record> {
    if ns == [] then [] else Announced(ns[..|ns| - 1]) + EndOf(ns[|ns| - 1])
  }

  /** The outcomes recorded about the child run. */
  function Recorded(rs: seq<Record>): seq<Record> {
    if rs == [] then []
    else
      var r := rs[|rs| - 1];
      Recorded(rs[..|rs| - 1]) + if r.RunCompleted? || r.RunFailed? || r.RunTimedOut? then [r] else []
  }

  /** Nothing but start notices after a closing one. */
  predicate QuietAfterEnd(ns: seq<Notice>) {
    ns == [] || (QuietAfterEnd(ns[..|ns| - 1]) && (Announced(ns[..|ns| - 1]) != [] ==> ns[|ns| - 1].Started?))
  }

  function Shown(n: Notice): Text16 {
    if n.Progress? then Visible(n.snippet) else []
  }

  /** The text the parent has been shown, white space aside. */
  function Emitted(ns: seq<Notice>): Text16 {
    if ns == [] then [] else Emitted(ns[..|ns| - 1]) + Shown(ns[|ns| - 1])
  }

  lemma Append(ns: seq<Notice>, n: Notice)
    ensures PhaseOf(ns + [n]) == PhaseStep(PhaseOf(ns), n)
    ensures Announced(ns + [n]) == Announced(ns) + EndOf(n)
    ensures QuietAfterEnd(ns + [n]) <==> QuietAfterEnd(ns) && (Announced(ns) != [] ==> n.Started?)
    ensures Emitted(ns + [n]) == Emitted(ns) + Shown(n)
  {
    assert (ns + [n])[..|ns|] == ns;
  }

  lemma AppendRecord(rs: seq<Record>, r: Record)
    ensures Recorded(rs + [r]) == Recorded(rs) + if r.RunCompleted? || r.RunFailed? || r.RunTimedOut? then [r] else []
  {
    assert (rs + [r])[..|rs|] == rs;
  }

  // ---------------------------------------------------------------- the invariant

  predicate LogInv(s: Stream) {
    && PhaseOf(s.notices) == (if s.stallNotified then Stuck else Flowing)
    && Announced(s.notices) == Recorded(s.records) && |Recorded(s.records)| <= 1
    && (!s.disposed ==> Recorded(s.records) == [])
    && QuietAfterEnd(s.notices)
  }

  predicate TimerInv(c: Config, s: Stream) {
    && |s.pendingText| < SNIPPET_MAX
    && (s.disposed ==> !s.flushArmed && !s.watching && !s.lifetimeArmed)
    && (!s.disposed ==> s.watching && s.lifetimeArmed)
    && (c.flushMs == 0 ==> !s.flushArmed)
    && (!s.disposed && c.flushMs > 0 ==> (s.flushArmed <==> s.pendingText != []))
    && (Recorded(s.records) == [RunCompleted] || Recorded(s.records) == [RunFailed] ==> s.pendingText == [])
  }

  predicate Inv(c: Config, s: Stream) {
    LogInv(s) && TimerInv(c, s)
  }

  lemma BeginInv(c: Config, now: int, startNotice: bool)
    ensures Inv(c, Begin(now, startNotice))
  {
    Append([], Started);
    AppendRecord([], StartRecorded);
    assert [] + [Started] == [Started] && [] + [StartRecorded] == [StartRecorded];
  }

  lemma FlushKeepsLog(s: Stream)
    requires LogInv(s) && (!s.disposed || s.pendingText == [])
    ensures LogInv(Flush(s))
  {
    assert s.notices + [] == s.notices;
    if Snippet(s.pendingText) != [] {
      Append(s.notices, Progress(Snippet(s.pendingText)));
    }
  }

  lemma ReportKeepsLog(s: Stream, n: Notice, r: Record)
    requires LogInv(s) && (s.disposed ==> n.Started?)
    requires EndOf(n) == if r.RunCompleted? || r.RunFailed? || r.RunTimedOut? then [r] else []
    ensures var t := Report(s, n, r);
            && PhaseOf(t.notices) == PhaseStep(PhaseOf(s.notices), n) && QuietAfterEnd(t.notices)
            && Announced(t.notices) == Recorded(t.records) && Recorded(t.records) == Recorded(s.records) + EndOf(n)
  {
    Append(s.notices, n);
    AppendRecord(s.records, r);
  }

  lemma BufferedKeeps(c: Config, s: Stream, text: Text16, now: int)
    requires Inv(c, s) && !s.disposed
    ensures LogInv(Buffered(s, text, now))
    ensures var b := Buffered(s, text, now);
            && b.disposed == s.disposed && b.flushArmed == s.flushArmed && b.watching && b.lifetimeArmed
            && Recorded(b.records) == [] && Emitted(b.notices) == Emitted(s.notices)
  {
    if s.stallNotified {
      ReportKeepsLog(s, Resumed, ResumedOutput);
      Append(s.notices, Resumed);
    }
  }

  lemma DeltaKeepsInv(c: Config, s: Stream, text: Text16, now: int)
    requires Inv(c, s)
    ensures Inv(c, OnDelta(c, s, text, now))
  {
    if !s.disposed && !Blank(text) {
      var b := Buffered(s, text, now);
      BufferedKeeps(c, s, text, now);
      FlushKeepsLog(b);
      assert text != [];
    }
  }

  lemma EndKeepsInv(c: Config, s: Stream, n: Notice, r: Record)
    requires Inv(c, s) && !s.disposed && ((n.Done? && r.RunCompleted?) || (n.Failed? && r.RunFailed?))
    ensures Inv(c, Close(Report(Flush(s), n, r)))
  {
    hide PhaseOf, Announced, Recorded, QuietAfterEnd, Snippet, Flushed;
    FlushKeepsLog(s);
    ReportKeepsLog(Flush(s), n, r);
  }

  lemma NextKeepsInv(c: Config, s: Stream, e: Event)
    requires Inv(c, s) && Enabled(s, e)
    ensures Inv(c, Next(c, s, e))
  {
    match e
    case Delta(text, now) => DeltaKeepsInv(c, s, text, now);
    case End => if !s.disposed { EndKeepsInv(c, s, Done, RunCompleted); }
    case Error => if !s.disposed { EndKeepsInv(c, s, Failed, RunFailed); }
    case FlushTimer => FlushKeepsLog(s);
    case WatchTick(now) => TickKeepsInv(c, s, now);
    case LifetimeTimer => TimeoutKeepsInv(c, s);
    case Dispose =>
    case NotifyStarted => ReportKeepsLog(s, Started, StartRecorded);
  }

  lemma TimeoutKeepsInv(c: Config, s: Stream)
    requires Inv(c, s) && !s.disposed
    ensures Inv(c, Close(Report(s, TimedOut, RunTimedOut)))
  {
    ReportKeepsLog(s, TimedOut, RunTimedOut);
    assert [] + EndOf(TimedOut) == [RunTimedOut];
  }

  lemma TickKeepsInv(c: Config, s: Stream, now: int)
    requires Inv(c, s) && s.watching
    ensures Inv(c, OnWatchTick(c, s, now))
  {
    hide PhaseOf, Announced, Recorded, QuietAfterEnd;
    ReportKeepsLog(s, Stalled, NoOutput);
  }

  // ---------------------------------------------------------------- which text survives a step

  /** What the parent was shown and what is still buffered. */
  function TextOf(s: Stream): Text16 {
    Emitted(s.notices) + Visible(s.pendingText)
  }

  function AcceptedBy(s: Stream, e: Event): Text16 {
    if e.Delta? && !s.disposed then Visible(e.text) else []
  }

  /** A compacted text is shown whole if it fits; by luck also if the cut replaces a lone ellipsis by itself. */
  predicate FitsSnippet(t: Text16) {
    var c := Compact(t);
    |c| <= SNIPPET_MAX || (|c| == SNIPPET_MAX + 1 && c[SNIPPET_MAX - 1] == SPACE && c[SNIPPET_MAX] == ELLIPSIS)
  }

  function Dropped(t: Text16): Text16 {
    if |t| > BUFFER_MAX then t[..|t| - BUFFER_MAX] else []
  }

  /** Can be decided before the event: the delta neither pushes text out of the buffer nor overfills a snippet. */
  predicate Lossless(s: Stream, e: Event) {
    e.Delta? && !s.disposed && !Blank(e.text) ==>
      Blank(Dropped(s.pendingText + e.text)) && FitsSnippet(LastPart(s.pendingText + e.text, BUFFER_MAX))
  }

  /** A spaced text of three units or more has two visible ones if it ends in one. */
  lemma TwoVisible(t: Text16)
    requires Spaced(t) && |t| >= 3 && !IsSpace(t[|t| - 1])
    ensures |Visible(t)| >= 2
  {
    var init := t[..|t| - 1];
    var front := init[..|init| - 1];
    VisibleSnoc(t);
    VisibleSnoc(init);
    VisibleSnoc(front);
    assert IsSpace(t[|t| - 2]) || !IsSpace(init[|init| - 1]);
    assert !IsSpace(t[|t| - 3]) ==> !IsSpace(front[|front| - 1]);
    assert IsSpace(t[|t| - 3]) ==> !IsSpace(t[|t| - 3 + 1]);
  }

  lemma TailVisible(t: Text16)
    requires Spaced(t) && |t| >= 2 && !IsSpace(t[|t| - 1])
    ensures |Visible(t)| >= 1
    ensures Visible(t) == [ELLIPSIS] <==> |t| == 2 && t[0] == SPACE && t[1] == ELLIPSIS
  {
    VisibleSnoc(t);
    if |t| > 2 {
      TwoVisible(t);
    } else {
      VisibleSnoc(t[..1]);
      assert t[..1][..0] == [];
      assert IsSpace(t[0]) ==> t[0] == SPACE;
      assert Visible(t[..1]) == VisibleUnit(t[0]);
      assert if IsSpace(t[0]) then Visible(t) == [t[1]] else |Visible(t)| == 2;
    }
  }

  lemma CompactTail(t: Text16)
    requires |Compact(t)| > SNIPPET_MAX
    ensures var tail := Compact(t)[SNIPPET_MAX - 1..];
            && |Visible(tail)| >= 1
            && (Visible(tail) == [ELLIPSIS] <==> |tail| == 2 && tail[0] == SPACE && tail[1] == ELLIPSIS)
  {
    var c := Compact(t);
    var tail := c[SNIPPET_MAX - 1..];
    CompactSpaced(t);
    forall i | 0 <= i < |tail| && IsSpace(tail[i])
      ensures tail[i] == SPACE && (i + 1 < |tail| ==> !IsSpace(tail[i + 1])) {
      assert tail[i] == c[SNIPPET_MAX - 1 + i];
    }
    TailVisible(tail);
  }

  lemma SnippetVisible(t: Text16)
    ensures |Visible(Snippet(t))| <= |Visible(t)|
    ensures Visible(Snippet(t)) == Visible(t) <==> FitsSnippet(t)
  {
    var c := Compact(t);
    VisibleCompact(t);
    if |c| > SNIPPET_MAX {
      CompactTail(t);
      CutVisible(c[..SNIPPET_MAX - 1], c[SNIPPET_MAX - 1..]);
      assert c == c[..SNIPPET_MAX - 1] + c[SNIPPET_MAX - 1..];
    }
  }

  lemma CutVisible(head: Text16, tail: Text16)
    ensures Visible(head + [ELLIPSIS]) == Visible(head) + [ELLIPSIS]
    ensures Visible(head + tail) == Visible(head) + Visible(tail)
    ensures Visible(head + [ELLIPSIS]) == Visible(head + tail) <==> Visible(tail) == [ELLIPSIS]
    ensures |Visible(tail)| >= 1 ==> |Visible(head + [ELLIPSIS])| <= |Visible(head + tail)|
  {
    VisibleConcat(head, [ELLIPSIS]);
    VisibleConcat(head, tail);
    assert [ELLIPSIS][1..] == [];
    assert Visible([ELLIPSIS]) == [ELLIPSIS];
    var a, b := Visible(head), Visible(tail);
    assert (a + [ELLIPSIS])[|a|..] == [ELLIPSIS] && (a + b)[|a|..] == b;
  }

  lemma FlushText(s: Stream)
    ensures Emitted(Flush(s).notices) == Emitted(s.notices) + Visible(Snippet(s.pendingText))
    ensures TextOf(Flush(s)) == Emitted(Flush(s).notices)
  {
    assert s.notices + [] == s.notices;
    if Snippet(s.pendingText) != [] {
      Append(s.notices, Progress(Snippet(s.pendingText)));
    }
  }

  lemma SmallFits(t: Text16)
    requires |t| < SNIPPET_MAX
    ensures FitsSnippet(t) && Dropped(t) == [] && LastPart(t, BUFFER_MAX) == t
  {
  }

  /** The visible text of a buffer that is cut on the left. */
  lemma CutBuffer(t: Text16)
    ensures Visible(t) == Visible(Dropped(t)) + Visible(LastPart(t, BUFFER_MAX))
  {
    assert t == Dropped(t) + LastPart(t, BUFFER_MAX);
    VisibleConcat(Dropped(t), LastPart(t, BUFFER_MAX));
  }

  lemma ShownOfBuffer(t: Text16)
    ensures |Visible(Snippet(LastPart(t, BUFFER_MAX)))| <= |Visible(t)|
    ensures Visible(Snippet(LastPart(t, BUFFER_MAX))) == Visible(t) <==>
            Blank(Dropped(t)) && FitsSnippet(LastPart(t, BUFFER_MAX))
  {
    CutBuffer(t);
    SnippetVisible(LastPart(t, BUFFER_MAX));
  }

  /** What one event does to the text, in numbers and exactly. */
  ghost predicate TextStep(s: Stream, e: Event, n: Stream) {
    && Emitted(s.notices) <= Emitted(n.notices)
    && |TextOf(n)| <= |TextOf(s)| + |AcceptedBy(s, e)|
    && (TextOf(n) == TextOf(s) + AcceptedBy(s, e) <==> Lossless(s, e))
    && (!Lossless(s, e) ==> n.pendingText == [])
  }

  lemma JoinedText(s: Stream, text: Text16)
    ensures TextOf(s) + Visible(text) == Emitted(s.notices) + Visible(s.pendingText + text)
  {
    VisibleConcat(s.pendingText, text);
    Texts.ConcatAssociates(Emitted(s.notices), Visible(s.pendingText), Visible(text));
  }

  lemma FlushedDeltaText(shown: Text16, t: Text16)
    ensures |shown + Visible(Snippet(LastPart(t, BUFFER_MAX)))| <= |shown + Visible(t)|
    ensures shown + Visible(Snippet(LastPart(t, BUFFER_MAX))) == shown + Visible(t) <==>
            Blank(Dropped(t)) && FitsSnippet(LastPart(t, BUFFER_MAX))
  {
    ShownOfBuffer(t);
    SameFront(shown, Visible(Snippet(LastPart(t, BUFFER_MAX))), Visible(t));
  }

  predicate Flushes(s: Stream, text: Text16) {
    |LastPart(s.pendingText + text, BUFFER_MAX)| >= SNIPPET_MAX || HasParagraphBreak(text)
  }

  lemma DeltaShows(c: Config, s: Stream, text: Text16, now: int)
    requires Inv(c, s) && !s.disposed && !Blank(text)
    ensures var n := OnDelta(c, s, text, now);
            if Flushes(s, text) then
              n.pendingText == []
              && Emitted(n.notices)
                 == Emitted(s.notices) + Visible(Snippet(LastPart(s.pendingText + text, BUFFER_MAX)))
            else
              n.pendingText == s.pendingText + text && Emitted(n.notices) == Emitted(s.notices)
  {
    var b := Buffered(s, text, now);
    BufferedKeeps(c, s, text, now);
    if Flushes(s, text) {
      FlushText(b);
    } else {
      SmallFits(s.pendingText + text);
    }
  }

  lemma DeltaText(c: Config, s: Stream, text: Text16, now: int)
    requires Inv(c, s) && !s.disposed && !Blank(text)
    ensures TextStep(s, Delta(text, now), OnDelta(c, s, text, now))
  {
    DeltaShows(c, s, text, now);
    JoinedText(s, text);
    if Flushes(s, text) {
      FlushedDeltaStep(s, text, now, OnDelta(c, s, text, now));
    } else {
      SmallFits(s.pendingText + text);
    }
  }

  lemma FlushedDeltaStep(s: Stream, text: Text16, now: int, n: Stream)
    requires !s.disposed && !Blank(text) && n.pendingText == []
    requires Emitted(n.notices)
          == Emitted(s.notices) + Visible(Snippet(LastPart(s.pendingText + text, BUFFER_MAX)))
    ensures TextStep(s, Delta(text, now), n)
  {
    JoinedText(s, text);
    FlushedDeltaText(Emitted(s.notices), s.pendingText + text);
    assert TextOf(n) == Emitted(n.notices);
  }

  lemma SameFront(a: Text16, x: Text16, y: Text16)
    ensures a + x == a + y <==> x == y
  {
    assert (a + x)[|a|..] == x && (a + y)[|a|..] == y;
  }

  lemma NextText(c: Config, s: Stream, e: Event)
    requires Inv(c, s) && Enabled(s, e)
    ensures TextStep(s, e, Next(c, s, e))
  {
    match e
    case Delta(text, now) => if !s.disposed && !Blank(text) { DeltaText(c, s, text, now); }
    case _ => OtherText(c, s, e);
  }

  lemma OtherText(c: Config, s: Stream, e: Event)
    requires Inv(c, s) && Enabled(s, e) && !e.Delta?
    ensures TextOf(Next(c, s, e)) == TextOf(s) && Emitted(s.notices) <= Emitted(Next(c, s, e).notices)
  {
    hide Visible, Emitted, LogInv, Snippet, Flushed;
    match e
    case Delta(_, _) =>
    case FlushTimer => FlushTextKept(s);
    case End => EndText(s, Done, RunCompleted);
    case Error => EndText(s, Failed, RunFailed);
    case WatchTick(now) => SilentText(s, Stalled, NoOutput);
    case LifetimeTimer => SilentText(s, TimedOut, RunTimedOut);
    case Dispose =>
    case NotifyStarted => SilentText(s, Started, StartRecorded);
  }

  lemma SilentText(s: Stream, n: Notice, r: Record)
    requires !n.Progress?
    ensures TextOf(Report(s, n, r)) == TextOf(s) && Emitted(Report(s, n, r).notices) == Emitted(s.notices)
  {
    Append(s.notices, n);
  }

  lemma EndText(s: Stream, n: Notice, r: Record)
    requires |s.pendingText| < SNIPPET_MAX && !n.Progress?
    ensures TextOf(Report(Flush(s), n, r)) == TextOf(s)
    ensures Emitted(s.notices) <= Emitted(Report(Flush(s), n, r).notices)
  {
    FlushTextKept(s);
    SilentText(Flush(s), n, r);
  }

  lemma FlushTextKept(s: Stream)
    requires |s.pendingText| < SNIPPET_MAX
    ensures TextOf(Flush(s)) == TextOf(s)
    ensures Emitted(s.notices) <= Emitted(Flush(s).notices)
  {
    FlushText(s);
    SnippetVisible(s.pendingText);
  }

  // ---------------------------------------------------------------- whole runs

  predicate EnabledRun(c: Config, s: Stream, es: seq<Event>)
    decreases |es|
  {
    es == [] || (Enabled(s, es[0]) && EnabledRun(c, Next(c, s, es[0]), es[1..]))
  }

  function Run(c: Config, s: Stream, es: seq<Event>): Stream
    decreases |es|
  {
    if es == [] then s else Run(c, Next(c, s, es[0]), es[1..])
  }

  function Accepted(c: Config, s: Stream, es: seq<Event>): Text16
    decreases |es|
  {
    if es == [] then [] else AcceptedBy(s, es[0]) + Accepted(c, Next(c, s, es[0]), es[1..])
  }

  predicate AllLossless(c: Config, s: Stream, es: seq<Event>)
    decreases |es|
  {
    es == [] || (Lossless(s, es[0]) && AllLossless(c, Next(c, s, es[0]), es[1..]))
  }

  lemma {:induction false} RunKeepsInv(c: Config, s: Stream, es: seq<Event>)
    requires Inv(c, s) && EnabledRun(c, s, es)
    ensures Inv(c, Run(c, s, es))
    decreases |es|
  {
    if es != [] {
      NextKeepsInv(c, s, es[0]);
      RunKeepsInv(c, Next(c, s, es[0]), es[1..]);
    }
  }

  /** Every reachable state: no text waits without an armed flush timer, stalls and resumptions alternate, and at
      most one outcome is announced and recorded, the same one. */
  lemma EveryRun(c: Config, now: int, startNotice: bool, es: seq<Event>)
    requires EnabledRun(c, Begin(now, startNotice), es)
    ensures Inv(c, Run(c, Begin(now, startNotice), es))
  {
    BeginInv(c, now, startNotice);
    RunKeepsInv(c, Begin(now, startNotice), es);
  }

  /** Text already lost at `accepted`: too little is left, or what was shown differs from what was accepted. */
  predicate Lost(s: Stream, accepted: Text16) {
    var shown := Emitted(s.notices);
    |TextOf(s)| < |accepted| || (|shown| <= |accepted| && shown != accepted[..|shown|])
  }

  lemma LossAppears(s: Stream, e: Event, n: Stream, accepted: Text16)
    requires TextStep(s, e, n) && TextOf(s) == accepted && !Lossless(s, e)
    ensures Lost(n, accepted + AcceptedBy(s, e))
  {
    assert Visible([]) == [];
    assert TextOf(n) == Emitted(n.notices);
  }

  lemma PrefixesStayApart(a: Text16, a': Text16, b: Text16, b': Text16)
    requires a <= a' && b <= b' && |a| <= |b| && |a'| <= |b'| && a != b[..|a|]
    ensures a' != b'[..|a'|]
  {
    assert a'[..|a|] == a && b'[..|a'|][..|a|] == b[..|a|];
  }

  lemma LossStays(s: Stream, e: Event, n: Stream, accepted: Text16)
    requires TextStep(s, e, n) && |TextOf(s)| <= |accepted| && Lost(s, accepted)
    ensures Lost(n, accepted + AcceptedBy(s, e))
  {
    if |TextOf(s)| >= |accepted| {
      PrefixesStayApart(Emitted(s.notices), Emitted(n.notices), accepted, accepted + AcceptedBy(s, e));
    }
  }

  /** One event, against the text accepted before it. */
  lemma TrackText(s: Stream, e: Event, n: Stream, accepted: Text16)
    requires TextStep(s, e, n) && |TextOf(s)| <= |accepted|
    ensures |TextOf(n)| <= |accepted + AcceptedBy(s, e)|
    ensures TextOf(s) == accepted && Lossless(s, e) ==> TextOf(n) == accepted + AcceptedBy(s, e)
    ensures (TextOf(s) == accepted && !Lossless(s, e)) || Lost(s, accepted) ==> Lost(n, accepted + AcceptedBy(s, e))
  {
    if Lost(s, accepted) {
      LossStays(s, e, n, accepted);
    } else if TextOf(s) == accepted && !Lossless(s, e) {
      LossAppears(s, e, n, accepted);
    }
  }

  lemma {:induction false} RunText(c: Config, s: Stream, accepted: Text16, es: seq<Event>)
    requires Inv(c, s) && EnabledRun(c, s, es)
    requires |TextOf(s)| <= |accepted|
    ensures TextOf(s) == accepted ==>
              (TextOf(Run(c, s, es)) == accepted + Accepted(c, s, es) <==> AllLossless(c, s, es))
    ensures Lost(s, accepted) ==> TextOf(Run(c, s, es)) != accepted + Accepted(c, s, es)
    decreases |es|
  {
    if es == [] {
      assert accepted + Accepted(c, s, es) == accepted;
      LostIsUnequal(s, accepted);
    } else {
      var e, n := es[0], Next(c, s, es[0]);
      NextText(c, s, e);
      NextKeepsInv(c, s, e);
      TrackText(s, e, n, accepted);
      RunText(c, n, accepted + AcceptedBy(s, e), es[1..]);
      Texts.ConcatAssociates(accepted, AcceptedBy(s, e), Accepted(c, n, es[1..]));
    }
  }

  lemma LostIsUnequal(s: Stream, accepted: Text16)
    ensures Lost(s, accepted) ==> TextOf(s) != accepted
  {
  }

  /** Over any run, what was shown together with what is buffered is the accepted text, white space aside, exactly
      when every delta was lossless. */
  lemma TextSurvivesExactly(c: Config, now: int, startNotice: bool, es: seq<Event>)
    requires EnabledRun(c, Begin(now, startNotice), es)
    ensures var b := Begin(now, startNotice);
            TextOf(Run(c, b, es)) == Accepted(c, b, es) <==> AllLossless(c, b, es)
  {
    var b := Begin(now, startNotice);
    BeginInv(c, now, startNotice);
    Append([], Started);
    assert [] + [Started] == [Started];
    assert TextOf(b) == [];
    RunText(c, b, [], es);
    assert [] + Accepted(c, b, es) == Accepted(c, b, es);
  }

  /** A run that ended by itself has been shown completely if nothing was lost. A relay that timed out may still hold
      text: it is never shown. */
  lemma CompletionShowsEverything(c: Config, now: int, startNotice: bool, es: seq<Event>)
    requires EnabledRun(c, Begin(now, startNotice), es)
    requires var ns := Run(c, Begin(now, startNotice), es).notices; Done in ns || Failed in ns
    ensures var b := Begin(now, startNotice);
            Emitted(Run(c, b, es).notices) == Accepted(c, b, es) <==> AllLossless(c, b, es)
  {
    var b := Begin(now, startNotice);
    var s := Run(c, b, es);
    EveryRun(c, now, startNotice, es);
    TextSurvivesExactly(c, now, startNotice, es);
    EndedIsEmpty(c, s);
  }

  lemma EndedIsEmpty(c: Config, s: Stream)
    requires Inv(c, s) && (Done in s.notices || Failed in s.notices)
    ensures s.pendingText == [] && TextOf(s) == Emitted(s.notices)
  {
    if Done in s.notices {
      EndsAnnounced(s.notices, Done);
    } else {
      EndsAnnounced(s.notices, Failed);
    }
    assert Recorded(s.records) == [Recorded(s.records)[0]];
  }

  lemma {:induction false} EndsAnnounced(ns: seq<Notice>, n: Notice)
    requires n in ns && EndOf(n) != []
    ensures EndOf(n)[0] in Announced(ns)
  {
    if ns[|ns| - 1] != n {
      EndsAnnounced(ns[..|ns| - 1], n);
    }
  }

  function Spaces(n: nat): Text16 {
    if n == 0 then [] else [SPACE] + Spaces(n - 1)
  }

  lemma {:induction false} CollapseSpaces(n: nat, x: CodeUnit)
    requires !IsSpace(x)
    ensures |Spaces(n)| == n && Collapse(Spaces(n) + [x]) == if n == 0 then [x] else [SPACE, x]
  {
    var t := Spaces(n) + [x];
    if n == 0 {
      assert t == [x] && [x][1..] == [];
    } else {
      CollapseSpaces(n - 1, x);
      var rest := Spaces(n - 1) + [x];
      assert t[1..] == rest && t[0] == SPACE;
      assert n > 1 ==> rest[0] == SPACE;
      assert n == 1 ==> rest == [x];
    }
  }

  lemma CompactSpaces(n: nat, x: CodeUnit)
    requires !IsSpace(x)
    ensures |Spaces(n)| == n && Compact(Spaces(n) + [x]) == [x]
  {
    CollapseSpaces(n, x);
    assert [SPACE, x][1..] == [x];
    assert TrimStart([x]) == [x];
  }

  lemma FrontOfSpaces(a: CodeUnit, n: nat, b: CodeUnit)
    requires n > 0
    ensures var t := [a] + Spaces(n) + [b];
            |t| == n + 2 && t[0] == a && t[2..] == Spaces(n - 1) + [b]
  {
    CollapseSpaces(n, 98);
    var t := [a] + Spaces(n) + [b];
    assert t[2..] == Spaces(n)[1..] + [b];
  }

  /** No snippet need be cut for text to vanish: behind 4000 spaces the first unit of a delta falls out of the
      buffer, while the snippet shown is the one unit after them. */
  lemma BufferCutLosesText(now: int, a: CodeUnit, b: CodeUnit)
    requires !IsSpace(a) && !IsSpace(b)
    ensures var delta := [a] + Spaces(BUFFER_MAX) + [b];
            && Compact(LastPart(delta, BUFFER_MAX)) == [b]
            && !Lossless(Begin(now, false), Delta(delta, now))
  {
    var delta := [a] + Spaces(BUFFER_MAX) + [b];
    FrontOfSpaces(a, BUFFER_MAX, b);
    CompactSpaces(BUFFER_MAX - 1, b);
    assert [] + delta == delta;
    NotBlank(delta);
    NotBlank(Dropped(delta));
  }

  lemma NotBlank(t: Text16)
    requires t != [] && !IsSpace(t[0])
    ensures !Blank(t)
  {
  }

  /** A disposed relay stays silent, but for start notices, which are not gated. */
  lemma {:induction false} DisposedStaysSilent(c: Config, s: Stream, es: seq<Event>)
    requires s.disposed && !s.flushArmed && EnabledRun(c, s, es)
    ensures var n := Run(c, s, es);
            && n.disposed && n.pendingText == s.pendingText && s.notices <= n.notices
            && |n.notices| == |s.notices| + Starts(es)
            && forall i :: |s.notices| <= i < |n.notices| ==> n.notices[i] == Started
    decreases |es|
  {
    if es != [] {
      DisposedStaysSilent(c, Next(c, s, es[0]), es[1..]);
    }
  }

  function Starts(es: seq<Event>): nat {
    if es == [] then 0 else (if es[0].NotifyStarted? then 1 else 0) + Starts(es[1..])
  }
}
