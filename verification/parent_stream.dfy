/** The relay that reports a child run's output to its parent session, src/agents/acp-spawn-parent-stream.ts:
    a text buffer, a flush timer, a stall watcher, a lifetime timer and the closing notices. */
module ParentStreams {
  import opened Utf16

  const BUFFER_MAX := 4_000
  const SNIPPET_MAX := 220

  datatype Notice = Started | Progress(snippet: Text16) | Stalled | Resumed | Done | Failed | TimedOut

  /** What is recorded about the child run. */
  datatype Record = StartRecorded | NoOutput | ResumedOutput | RunCompleted | RunFailed | RunTimedOut

  /** Milliseconds, already floored and clamped at 0; a flush delay of 0 turns the timer off, a notice delay of 0
      the stall watcher. */
  datatype Config = Config(flushMs: nat, noOutputMs: nat)

  datatype Stream = Stream(
    disposed: bool,
    pendingText: Text16,
    lastProgressAt: int,
    stallNotified: bool,
    flushArmed: bool,
    watching: bool,
    lifetimeArmed: bool,
    notices: seq<Notice>,
    records: seq<Record>)

  datatype Event =
    | Delta(text: Text16, now: int)
    | End
    | Error
    | FlushTimer
    | WatchTick(now: int)
    | LifetimeTimer
    | Dispose
    | NotifyStarted

  // ---------------------------------------------------------------- text

  function Truncate(s: Text16, max: nat): (r: Text16)
    ensures |r| <= max || |s| <= max
  {
    if |s| <= max then s else if max <= 1 then s[..max] else s[..max - 1] + [ELLIPSIS]
  }

  function Snippet(s: Text16): (r: Text16)
    ensures |r| <= SNIPPET_MAX
  {
    Truncate(Compact(s), SNIPPET_MAX)
  }

  /** `slice(-max)` of a text longer than `max`. */
  function LastPart(s: Text16, max: nat): Text16 {
    if |s| > max then s[|s| - max..] else s
  }

  predicate HasParagraphBreak(s: Text16) {
    exists i :: 0 <= i < |s| - 1 && s[i] == NEWLINE && s[i + 1] == NEWLINE
  }

  // ---------------------------------------------------------------- steps

  function Begin(now: int, startNotice: bool): Stream {
    var s := Stream(false, [], now, false, false, true, true, [], []);
    if startNotice then AddStart(s) else s
  }

  function Report(s: Stream, notice: Notice, record: Record): Stream {
    s.(notices := s.notices + [notice], records := s.records + [record])
  }

  function AddStart(s: Stream): Stream {
    Report(s, Started, StartRecorded)
  }

  function Flushed(pending: Text16): seq<Notice> {
    if Snippet(pending) == [] then [] else [Progress(Snippet(pending))]
  }

  function Flush(s: Stream): Stream {
    s.(flushArmed := false, pendingText := [], notices := s.notices + Flushed(s.pendingText))
  }

  function Close(s: Stream): Stream {
    if s.disposed then s else s.(disposed := true, flushArmed := false, watching := false, lifetimeArmed := false)
  }

  function Buffered(s: Stream, text: Text16, now: int): Stream {
    var awake := if s.stallNotified then Report(s, Resumed, ResumedOutput).(stallNotified := false) else s;
    awake.(lastProgressAt := now, pendingText := LastPart(s.pendingText + text, BUFFER_MAX))
  }

  function OnDelta(c: Config, s: Stream, text: Text16, now: int): Stream {
    if s.disposed || Blank(text) then s
    else
      var b := Buffered(s, text, now);
      if |b.pendingText| >= SNIPPET_MAX || HasParagraphBreak(text) then Flush(b)
      else b.(flushArmed := b.flushArmed || c.flushMs > 0)
  }

  function OnWatchTick(c: Config, s: Stream, now: int): Stream {
    if s.disposed || c.noOutputMs == 0 || s.stallNotified || now - s.lastProgressAt < c.noOutputMs then s
    else Report(s, Stalled, NoOutput).(stallNotified := true)
  }

  predicate Enabled(s: Stream, e: Event) {
    match e
    case FlushTimer => s.flushArmed
    case WatchTick(_) => s.watching
    case LifetimeTimer => s.lifetimeArmed
    case _ => true
  }

  function Next(c: Config, s: Stream, e: Event): Stream {
    match e
    case Delta(text, now) => OnDelta(c, s, text, now)
    case End => if s.disposed then s else Close(Report(Flush(s), Done, RunCompleted))
    case Error => if s.disposed then s else Close(Report(Flush(s), Failed, RunFailed))
    case FlushTimer => Flush(s)
    case WatchTick(now) => OnWatchTick(c, s, now)
    case LifetimeTimer => if s.disposed then s else Close(Report(s, TimedOut, RunTimedOut))
    case Dispose => Close(s)
    case NotifyStarted => AddStart(s)
  }

  // ---------------------------------------------------------------- the relay object

  class ParentStreamRelay {
    const config: Config
    var disposed: bool
    var pendingText: Text16
    var lastProgressAt: int
    var stallNotified: bool
    var flushTimer: bool
    var noOutputWatcherTimer: bool
    var relayLifetimeTimer: bool
    var notices: seq<Notice>
    var records: seq<Record>

    constructor (config: Config, now: int, startNotice: bool)
      ensures this.config == config && State() == Begin(now, startNotice)
    {
      this.config := config;
      disposed, pendingText, lastProgressAt, stallNotified := false, [], now, false;
      flushTimer, noOutputWatcherTimer, relayLifetimeTimer := false, true, true;
      notices, records := [], [];
      new;
      if startNotice {
        EmitStartNotice();
      }
    }

    ghost function State(): Stream
      reads this
    {
      Stream(disposed, pendingText, lastProgressAt, stallNotified, flushTimer, noOutputWatcherTimer,
             relayLifetimeTimer, notices, records)
    }

    method EmitStartNotice()
      modifies this`notices, this`records
      ensures State() == Next(config, old(State()), Event.NotifyStarted)
    {
      records := records + [StartRecorded];
      notices := notices + [Started];
    }

    method FlushPending()
      modifies this`flushTimer, this`pendingText, this`notices
      ensures State() == Flush(old(State()))
    {
      flushTimer := false;
      if pendingText == [] {
        return;
      }
      var snippet := Truncate(Compact(pendingText), SNIPPET_MAX);
      pendingText := [];
      if snippet == [] {
        return;
      }
      notices := notices + [Progress(snippet)];
    }

    method ScheduleFlush()
      modifies this`flushTimer
      ensures flushTimer == (old(flushTimer) || (!disposed && config.flushMs > 0))
    {
      if disposed || flushTimer || config.flushMs == 0 {
        return;
      }
      flushTimer := true;
    }

    method OnAssistantDelta(delta: Text16, now: int)
      modifies this
      ensures State() == Next(config, old(State()), Delta(delta, now))
    {
      if disposed || Blank(delta) {
        return;
      }
      if stallNotified {
        stallNotified := false;
        records := records + [ResumedOutput];
        notices := notices + [Resumed];
      }
      lastProgressAt := now;
      pendingText := pendingText + delta;
      if |pendingText| > BUFFER_MAX {
        pendingText := pendingText[|pendingText| - BUFFER_MAX..];
      }
      assert State() == Buffered(old(State()), delta, now);
      if |pendingText| >= SNIPPET_MAX || HasParagraphBreak(delta) {
        FlushPending();
        return;
      }
      ScheduleFlush();
    }

    method OnLifecycle(failed: bool)
      modifies this
      ensures State() == Next(config, old(State()), if failed then Event.Error else Event.End)
    {
      if disposed {
        return;
      }
      FlushPending();
      if failed {
        notices := notices + [Failed];
        records := records + [RunFailed];
      } else {
        notices := notices + [Done];
        records := records + [RunCompleted];
      }
      DisposeRelay();
    }

    method OnWatcher(now: int)
      modifies this
      ensures State() == Next(config, old(State()), WatchTick(now))
    {
      if disposed || config.noOutputMs == 0 {
        return;
      }
      if stallNotified {
        return;
      }
      if now - lastProgressAt < config.noOutputMs {
        return;
      }
      stallNotified := true;
      records := records + [NoOutput];
      notices := notices + [Stalled];
    }

    method OnLifetimeEnd()
      modifies this
      ensures State() == Next(config, old(State()), LifetimeTimer)
    {
      if disposed {
        return;
      }
      records := records + [RunTimedOut];
      notices := notices + [TimedOut];
      DisposeRelay();
    }

    method DisposeRelay()
      modifies this
      ensures State() == Next(config, old(State()), Dispose)
    {
      if disposed {
        return;
      }
      disposed := true;
      flushTimer := false;
      relayLifetimeTimer := false;
      noOutputWatcherTimer := false;
    }
  }
}
