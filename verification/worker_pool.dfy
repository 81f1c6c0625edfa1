/** The parallel document runner of scripts/docs-i18n/main.go: a feeder goroutine, one goroutine per
    worker, an unbuffered job channel, a result channel of capacity `jobs`, shared cancellation and a
    collecting loop. Every point at which a goroutine can be preempted or can block is one event. */
module WorkerPool {

  /** `starts[w]` says whether worker w manages to create its translator. */
  datatype Config = Config(jobs: nat, starts: seq<bool>)

  datatype Outcome = Processed | Skipped | Failed

  datatype Result =
    | JobResult(job: nat, outcome: Outcome)
    | StartFailure
  {
    predicate IsError() {
      StartFailure? || outcome.Failed?
    }
  }

  datatype Worker =
    | Starting(ok: bool)
    | Receiving
    | Checking(job: nat)      // has taken a job, has not yet looked at the context
    | Processing(job: nat)
    | Sending(result: Result)
    | Cancelling              // has sent a failure, has not yet cancelled the context
    | Exited

  /** The collecting goroutine: in its loop, in `wg.Wait`, or done. */
  datatype Collector = Collecting | Joining(failed: bool) | Returned(failed: bool)

  datatype State = State(
    next: nat,                // first job the feeder has not handed over
    closed: bool,
    workers: seq<Worker>,
    cancelled: bool,
    queue: seq<Result>,
    received: seq<Result>,    // every result the collector has read
    dropped: seq<nat>,        // jobs taken after cancellation
    collector: Collector,
    processed: nat,
    skipped: nat)

  datatype Event =
    | StartUp(w: nat)
    | Take(w: nat)
    | CloseJobs
    | Drain(w: nat)
    | Check(w: nat)
    | Finish(w: nat, outcome: Outcome)
    | Send(w: nat)
    | Cancel(w: nat)
    | Collect
    | EndLoop
    | Join

  function Init(cfg: Config): State {
    State(0, false, seq(|cfg.starts|, i requires 0 <= i < |cfg.starts| => Starting(cfg.starts[i])),
          false, [], [], [], Collecting, 0, 0)
  }

  ghost predicate AllExited(ws: seq<Worker>) {
    forall w :: 0 <= w < |ws| ==> ws[w].Exited?
  }

  ghost predicate Enabled(cfg: Config, s: State, e: Event) {
    match e
    case StartUp(w) => w < |s.workers| && s.workers[w].Starting?
    case Take(w) => w < |s.workers| && s.workers[w].Receiving? && !s.closed && s.next < cfg.jobs
    case CloseJobs => !s.closed && s.next >= cfg.jobs
    case Drain(w) => w < |s.workers| && s.workers[w].Receiving? && s.closed
    case Check(w) => w < |s.workers| && s.workers[w].Checking?
    case Finish(w, _) => w < |s.workers| && s.workers[w].Processing?
    case Send(w) => w < |s.workers| && s.workers[w].Sending? && |s.queue| < cfg.jobs
    case Cancel(w) => w < |s.workers| && s.workers[w].Cancelling?
    case Collect => s.collector.Collecting? && |s.received| < cfg.jobs && s.queue != []
    case EndLoop => s.collector.Collecting? && |s.received| >= cfg.jobs
    case Join => s.collector.Joining? && AllExited(s.workers)
  }

  function AfterSend(r: Result): Worker {
    match r
    case StartFailure => Exited
    case JobResult(_, outcome) => if outcome.Failed? then Cancelling else Receiving
  }

  ghost function Next(cfg: Config, s: State, e: Event): State
    requires Enabled(cfg, s, e)
  {
    match e
    case StartUp(w) =>
      s.(workers := s.workers[w := if s.workers[w].ok then Receiving else Sending(StartFailure)])
    case Take(w) =>
      s.(workers := s.workers[w := Checking(s.next)], next := s.next + 1)
    case CloseJobs => s.(closed := true)
    case Drain(w) => s.(workers := s.workers[w := Exited])
    case Check(w) =>
      var job := s.workers[w].job;
      if s.cancelled then s.(workers := s.workers[w := Exited], dropped := s.dropped + [job])
      else s.(workers := s.workers[w := Processing(job)])
    case Finish(w, outcome) =>
      s.(workers := s.workers[w := Sending(JobResult(s.workers[w].job, outcome))])
    case Send(w) =>
      var r := s.workers[w].result;
      s.(workers := s.workers[w := AfterSend(r)], queue := s.queue + [r])
    case Cancel(w) => s.(workers := s.workers[w := Exited], cancelled := true)
    case Collect =>
      var r := s.queue[0];
      var s' := s.(queue := s.queue[1..], received := s.received + [r]);
      if r.IsError() then s'.(collector := Joining(true))
      else if r.outcome.Skipped? then s'.(skipped := s.skipped + 1)
      else s'.(processed := s.processed + 1)
    case EndLoop => s.(collector := Joining(false))
    case Join => s.(collector := Returned(s.collector.failed))
  }

  /** `es` is a schedule that leads from s to t. */
  ghost predicate Run(cfg: Config, s: State, es: seq<Event>, t: State)
    decreases |es|
  {
    if es == [] then s == t
    else Enabled(cfg, s, es[0]) && Run(cfg, Next(cfg, s, es[0]), es[1..], t)
  }

  ghost predicate Reachable(cfg: Config, s: State) {
    exists es :: Run(cfg, Init(cfg), es, s)
  }

  /** Nothing can move any more although the call has not returned. */
  ghost predicate Stuck(cfg: Config, s: State) {
    !s.collector.Returned? && forall e :: !Enabled(cfg, s, e)
  }

  // ---------------------------------------------------------------- counting

  /** A weighting of jobs: conservation is stated for every weighting at once. */
  type Weighting = nat -> nat

  function ResultWeight(r: Result, f: Weighting): nat {
    match r
    case JobResult(job, _) => f(job)
    case StartFailure => 0
  }

  function WorkerWeight(w: Worker, f: Weighting): nat {
    match w
    case Checking(job) => f(job)
    case Processing(job) => f(job)
    case Sending(r) => ResultWeight(r, f)
    case _ => 0
  }

  /** The weight of the jobs that are inside some worker. */
  function Held(ws: seq<Worker>, f: Weighting): nat {
    if ws == [] then 0 else WorkerWeight(ws[0], f) + Held(ws[1..], f)
  }

  function Reported(rs: seq<Result>, f: Weighting): nat {
    if rs == [] then 0 else ResultWeight(rs[0], f) + Reported(rs[1..], f)
  }

  function Total(jobs: seq<nat>, f: Weighting): nat {
    if jobs == [] then 0 else f(jobs[0]) + Total(jobs[1..], f)
  }

  /** The weight of the jobs lo, lo + 1, ..., hi - 1. */
  function Span(lo: nat, hi: nat, f: Weighting): nat
    decreases hi - lo
  {
    if lo >= hi then 0 else f(lo) + Span(lo + 1, hi, f)
  }

  function Due(w: Worker): nat {
    match w
    case Starting(ok) => if ok then 0 else 1
    case Sending(r) => if r.StartFailure? then 1 else 0
    case _ => 0
  }

  /** Start-up failures that no result on the channel reports yet. */
  function DueIn(ws: seq<Worker>): nat {
    if ws == [] then 0 else Due(ws[0]) + DueIn(ws[1..])
  }

  function StartFailures(rs: seq<Result>): nat {
    if rs == [] then 0 else (if rs[0].StartFailure? then 1 else 0) + StartFailures(rs[1..])
  }

  function Failing(starts: seq<bool>): nat {
    if starts == [] then 0 else (if starts[0] then 0 else 1) + Failing(starts[1..])
  }

  function Outcomes(rs: seq<Result>, o: Outcome): nat {
    if rs == [] then 0 else (if rs[0].JobResult? && rs[0].outcome == o then 1 else 0) + Outcomes(rs[1..], o)
  }

  lemma {:induction false} HeldUpdate(ws: seq<Worker>, i: nat, w: Worker, f: Weighting)
    requires i < |ws|
    ensures Held(ws[i := w], f) + WorkerWeight(ws[i], f) == Held(ws, f) + WorkerWeight(w, f)
  {
    if i > 0 {
      assert ws[i := w][1..] == ws[1..][i - 1 := w];
      HeldUpdate(ws[1..], i - 1, w, f);
    } else {
      assert ws[i := w][1..] == ws[1..];
    }
  }

  lemma {:induction false} DueUpdate(ws: seq<Worker>, i: nat, w: Worker)
    requires i < |ws|
    ensures DueIn(ws[i := w]) + Due(ws[i]) == DueIn(ws) + Due(w)
  {
    if i > 0 {
      assert ws[i := w][1..] == ws[1..][i - 1 := w];
      DueUpdate(ws[1..], i - 1, w);
    } else {
      assert ws[i := w][1..] == ws[1..];
    }
  }

  lemma {:induction false} ReportedAppend(rs: seq<Result>, r: Result, f: Weighting)
    ensures Reported(rs + [r], f) == Reported(rs, f) + ResultWeight(r, f)
  {
    if rs == [] {
      assert rs + [r] == [r];
    } else {
      assert (rs + [r])[1..] == rs[1..] + [r];
      ReportedAppend(rs[1..], r, f);
    }
  }

  lemma {:induction false} TotalAppend(jobs: seq<nat>, j: nat, f: Weighting)
    ensures Total(jobs + [j], f) == Total(jobs, f) + f(j)
  {
    if jobs == [] {
      assert jobs + [j] == [j];
    } else {
      assert (jobs + [j])[1..] == jobs[1..] + [j];
      TotalAppend(jobs[1..], j, f);
    }
  }

  lemma {:induction false} FailuresAppend(rs: seq<Result>, r: Result)
    ensures StartFailures(rs + [r]) == StartFailures(rs) + (if r.StartFailure? then 1 else 0)
  {
    if rs == [] {
      assert rs + [r] == [r];
    } else {
      assert (rs + [r])[1..] == rs[1..] + [r];
      FailuresAppend(rs[1..], r);
    }
  }

  lemma {:induction false} OutcomesAppend(rs: seq<Result>, r: Result, o: Outcome)
    ensures Outcomes(rs + [r], o) == Outcomes(rs, o) + (if r.JobResult? && r.outcome == o then 1 else 0)
  {
    if rs == [] {
      assert rs + [r] == [r];
    } else {
      assert (rs + [r])[1..] == rs[1..] + [r];
      OutcomesAppend(rs[1..], r, o);
    }
  }

  function Each(): Weighting {
    job => 1
  }

  function Only(j: nat): Weighting {
    job => if job == j then 1 else 0
  }

  lemma {:induction false} CountResults(rs: seq<Result>)
    ensures Reported(rs, Each()) + StartFailures(rs) == |rs|
  {
    if rs != [] {
      CountResults(rs[1..]);
    }
  }

  lemma {:induction false} WorkerShare(ws: seq<Worker>, i: nat, f: Weighting)
    requires i < |ws|
    ensures WorkerWeight(ws[i], f) <= Held(ws, f)
    ensures Due(ws[i]) <= DueIn(ws)
  {
    if i > 0 {
      WorkerShare(ws[1..], i - 1, f);
    }
  }

  lemma {:induction false} NothingHeld(ws: seq<Worker>, f: Weighting)
    requires AllExited(ws)
    ensures Held(ws, f) == 0 && DueIn(ws) == 0
  {
    if ws != [] {
      assert ws[0].Exited?;
      assert AllExited(ws[1..]);
      NothingHeld(ws[1..], f);
    }
  }

  lemma {:induction false} SpanEach(lo: nat, hi: nat)
    requires lo <= hi
    ensures Span(lo, hi, Each()) == hi - lo
    decreases hi - lo
  {
    if lo < hi {
      SpanEach(lo + 1, hi);
    }
  }

  lemma {:induction false} SpanOnly(lo: nat, hi: nat, j: nat)
    requires lo <= hi
    ensures Span(lo, hi, Only(j)) == if lo <= j < hi then 1 else 0
    decreases hi - lo
  {
    if lo < hi {
      SpanOnly(lo + 1, hi, j);
    }
  }

  lemma {:induction false} NoErrors(rs: seq<Result>)
    requires forall i :: 0 <= i < |rs| ==> !rs[i].IsError()
    ensures StartFailures(rs) == 0
    ensures Outcomes(rs, Processed) + Outcomes(rs, Skipped) == |rs|
  {
    if rs != [] {
      NoErrors(rs[1..]);
    }
  }

  lemma {:induction false} InitiallyHeld(starts: seq<bool>, ws: seq<Worker>, f: Weighting)
    requires |ws| == |starts|
    requires forall i :: 0 <= i < |ws| ==> ws[i] == Starting(starts[i])
    ensures DueIn(ws) == Failing(starts) && Held(ws, f) == 0
  {
    if ws != [] {
      InitiallyHeld(starts[1..], ws[1..], f);
    }
  }

  // ---------------------------------------------------------------- conservation

  /** Unsent, held, queued, counted and dropped work. */
  function Weight(cfg: Config, s: State, f: Weighting): nat {
    Span(s.next, cfg.jobs, f) + Held(s.workers, f) + Reported(s.queue, f) + Reported(s.received, f)
    + Total(s.dropped, f)
  }

  lemma TakeWeight(cfg: Config, s: State, w: nat, f: Weighting)
    requires Enabled(cfg, s, Take(w))
    ensures Weight(cfg, Next(cfg, s, Take(w)), f) == Weight(cfg, s, f)
  {
    HeldUpdate(s.workers, w, Checking(s.next), f);
  }

  lemma CheckWeight(cfg: Config, s: State, w: nat, f: Weighting)
    requires Enabled(cfg, s, Check(w))
    ensures Weight(cfg, Next(cfg, s, Check(w)), f) == Weight(cfg, s, f)
  {
    var job := s.workers[w].job;
    HeldUpdate(s.workers, w, if s.cancelled then Exited else Processing(job), f);
    TotalAppend(s.dropped, job, f);
  }

  lemma SendWeight(cfg: Config, s: State, w: nat, f: Weighting)
    requires Enabled(cfg, s, Send(w))
    ensures Weight(cfg, Next(cfg, s, Send(w)), f) == Weight(cfg, s, f)
  {
    var r := s.workers[w].result;
    HeldUpdate(s.workers, w, AfterSend(r), f);
    ReportedAppend(s.queue, r, f);
  }

  lemma CollectWeight(cfg: Config, s: State, f: Weighting)
    requires Enabled(cfg, s, Collect)
    ensures Weight(cfg, Next(cfg, s, Collect), f) == Weight(cfg, s, f)
  {
    ReportedAppend(s.received, s.queue[0], f);
  }

  /** No event creates, loses or duplicates a job. */
  lemma StepWeight(cfg: Config, s: State, e: Event, f: Weighting)
    requires Enabled(cfg, s, e)
    ensures Weight(cfg, Next(cfg, s, e), f) == Weight(cfg, s, f)
  {
    match e {
      case StartUp(w) =>
        HeldUpdate(s.workers, w, if s.workers[w].ok then Receiving else Sending(StartFailure), f);
      case Take(w) => TakeWeight(cfg, s, w, f);
      case Drain(w) => HeldUpdate(s.workers, w, Exited, f);
      case Check(w) => CheckWeight(cfg, s, w, f);
      case Finish(w, o) => HeldUpdate(s.workers, w, Sending(JobResult(s.workers[w].job, o)), f);
      case Send(w) => SendWeight(cfg, s, w, f);
      case Cancel(w) => HeldUpdate(s.workers, w, Exited, f);
      case Collect => CollectWeight(cfg, s, f);
      case _ =>
    }
  }

  lemma {:induction false} RunWeight(cfg: Config, s: State, es: seq<Event>, t: State, f: Weighting)
    requires Run(cfg, s, es, t)
    ensures Weight(cfg, t, f) == Weight(cfg, s, f)
    decreases |es|
  {
    if es != [] {
      StepWeight(cfg, s, es[0], f);
      RunWeight(cfg, Next(cfg, s, es[0]), es[1..], t, f);
    }
  }

  /** Every schedule: unsent, in-flight, queued, counted and dropped jobs are always all the jobs, each
      exactly once, whatever weights the jobs are counted with. */
  lemma Conservation(cfg: Config, s: State, f: Weighting)
    requires Reachable(cfg, s)
    ensures Weight(cfg, s, f) == Span(0, cfg.jobs, f)
  {
    var es :| Run(cfg, Init(cfg), es, s);
    RunWeight(cfg, Init(cfg), es, s, f);
    InitiallyHeld(cfg.starts, Init(cfg).workers, f);
  }

  // ---------------------------------------------------------------- invariants

  /** Every start-up failure is either still due or reported by exactly one result. */
  ghost predicate FailuresConserved(cfg: Config, s: State) {
    DueIn(s.workers) + StartFailures(s.queue) + StartFailures(s.received) == Failing(cfg.starts)
  }

  ghost predicate PhaseOk(start: bool, w: Worker, closed: bool, cancelled: bool) {
    match w
    case Starting(ok) => ok == start
    case Sending(r) => r.StartFailure? <==> !start
    case Exited => start ==> closed || cancelled
    case _ => start
  }

  ghost predicate PhasesOk(cfg: Config, s: State) {
    && |s.workers| == |cfg.starts|
    && (forall w :: 0 <= w < |s.workers| ==> PhaseOk(cfg.starts[w], s.workers[w], s.closed, s.cancelled))
    && (s.next > 0 ==> exists w :: 0 <= w < |cfg.starts| && cfg.starts[w])
    && s.next <= cfg.jobs
    && (s.closed ==> s.next == cfg.jobs)
    && |s.queue| <= cfg.jobs
  }

  ghost predicate JoinedOk(cfg: Config, received: seq<Result>, failed: bool) {
    if failed then received != [] && received[|received| - 1].IsError()
    else |received| == cfg.jobs && (received != [] ==> !received[|received| - 1].IsError())
  }

  /** The collector's counters, and when it stops reading. */
  ghost predicate TallyOk(cfg: Config, s: State) {
    && |s.received| <= cfg.jobs
    && s.processed == Outcomes(s.received, Processed)
    && s.skipped == Outcomes(s.received, Skipped)
    && (forall i :: 0 <= i < |s.received| - 1 ==> !s.received[i].IsError())
    && (match s.collector
        case Collecting => s.received != [] ==> !s.received[|s.received| - 1].IsError()
        case Joining(f) => JoinedOk(cfg, s.received, f)
        case Returned(f) => JoinedOk(cfg, s.received, f) && AllExited(s.workers))
  }

  ghost predicate FailureReported(s: State) {
    exists r :: (r in s.queue || r in s.received) && r.JobResult? && r.outcome.Failed?
  }

  /** Cancellation, and with it dropping, comes only after a failed job's result was enqueued. */
  ghost predicate CancelOk(s: State) {
    && (s.dropped != [] ==> s.cancelled)
    && (s.cancelled ==> FailureReported(s))
    && (forall w :: 0 <= w < |s.workers| && s.workers[w].Cancelling? ==> FailureReported(s))
  }

  ghost predicate Inv(cfg: Config, s: State) {
    && Weight(cfg, s, Each()) == cfg.jobs
    && FailuresConserved(cfg, s)
    && PhasesOk(cfg, s)
    && TallyOk(cfg, s)
    && CancelOk(s)
  }

  lemma InitInv(cfg: Config)
    ensures Inv(cfg, Init(cfg))
  {
    InitiallyHeld(cfg.starts, Init(cfg).workers, Each());
    SpanEach(0, cfg.jobs);
  }

  lemma StepFailures(cfg: Config, s: State, e: Event)
    requires Enabled(cfg, s, e) && FailuresConserved(cfg, s)
    ensures FailuresConserved(cfg, Next(cfg, s, e))
  {
    hide DueIn, StartFailures, Failing;
    match e {
      case StartUp(w) => DueUpdate(s.workers, w, Next(cfg, s, e).workers[w]);
      case Take(w) => DueUpdate(s.workers, w, Checking(s.next));
      case Drain(w) => DueUpdate(s.workers, w, Exited);
      case Check(w) => DueUpdate(s.workers, w, Next(cfg, s, e).workers[w]);
      case Finish(w, o) => DueUpdate(s.workers, w, Sending(JobResult(s.workers[w].job, o)));
      case Send(w) => SendFailures(cfg, s, w);
      case Cancel(w) => DueUpdate(s.workers, w, Exited);
      case Collect => CollectFailures(cfg, s);
      case _ =>
    }
  }

  lemma CollectFailures(cfg: Config, s: State)
    requires Enabled(cfg, s, Collect) && FailuresConserved(cfg, s)
    ensures FailuresConserved(cfg, Next(cfg, s, Collect))
  {
    FailuresAppend(s.received, s.queue[0]);
  }

  lemma SendFailures(cfg: Config, s: State, w: nat)
    requires Enabled(cfg, s, Send(w)) && FailuresConserved(cfg, s)
    ensures FailuresConserved(cfg, Next(cfg, s, Send(w)))
  {
    var r := s.workers[w].result;
    DueUpdate(s.workers, w, AfterSend(r));
    FailuresAppend(s.queue, r);
  }

  lemma StepPhases(cfg: Config, s: State, e: Event)
    requires Enabled(cfg, s, e) && PhasesOk(cfg, s)
    ensures PhasesOk(cfg, Next(cfg, s, e))
  {
    match e {
      case Take(w) => assert PhaseOk(cfg.starts[w], s.workers[w], s.closed, s.cancelled);
      case _ =>
    }
  }

  lemma CollectTally(cfg: Config, s: State)
    requires Enabled(cfg, s, Collect) && TallyOk(cfg, s)
    ensures TallyOk(cfg, Next(cfg, s, Collect))
  {
    var t := Next(cfg, s, Collect);
    OutcomesAppend(s.received, s.queue[0], Processed);
    OutcomesAppend(s.received, s.queue[0], Skipped);
    assert t.received[|t.received| - 1] == s.queue[0];
  }

  lemma StepTally(cfg: Config, s: State, e: Event)
    requires Enabled(cfg, s, e) && TallyOk(cfg, s)
    ensures TallyOk(cfg, Next(cfg, s, e))
  {
    if e.Collect? {
      CollectTally(cfg, s);
    } else {
      var t := Next(cfg, s, e);
      assert t.received == s.received && t.processed == s.processed && t.skipped == s.skipped;
    }
  }

  lemma StepCancel(cfg: Config, s: State, e: Event)
    requires Enabled(cfg, s, e) && CancelOk(s)
    ensures CancelOk(Next(cfg, s, e))
  {
    var t := Next(cfg, s, e);
    if FailureReported(s) {
      var r :| (r in s.queue || r in s.received) && r.JobResult? && r.outcome.Failed?;
      assert r in t.queue || r in t.received;
      assert FailureReported(t);
    }
    if e.Send? && t.workers[e.w].Cancelling? {
      assert s.workers[e.w].result in t.queue;
      assert FailureReported(t);
    }
  }

  lemma StepInv(cfg: Config, s: State, e: Event)
    requires Enabled(cfg, s, e) && Inv(cfg, s)
    ensures Inv(cfg, Next(cfg, s, e))
  {
    StepWeight(cfg, s, e, Each());
    StepFailures(cfg, s, e);
    StepPhases(cfg, s, e);
    StepTally(cfg, s, e);
    StepCancel(cfg, s, e);
  }

  lemma {:induction false} RunInv(cfg: Config, s: State, es: seq<Event>, t: State)
    requires Inv(cfg, s) && Run(cfg, s, es, t)
    ensures Inv(cfg, t)
    decreases |es|
  {
    if es != [] {
      StepInv(cfg, s, es[0]);
      RunInv(cfg, Next(cfg, s, es[0]), es[1..], t);
    }
  }

  lemma ReachableInv(cfg: Config, s: State)
    requires Reachable(cfg, s)
    ensures Inv(cfg, s)
  {
    var es :| Run(cfg, Init(cfg), es, s);
    InitInv(cfg);
    RunInv(cfg, Init(cfg), es, s);
  }

  // ---------------------------------------------------------------- termination

  function Phase(w: Worker): nat {
    match w
    case Starting(_) => 4
    case Receiving => 1
    case Checking(_) => 5
    case Processing(_) => 4
    case Sending(_) => 3
    case Cancelling => 1
    case Exited => 0
  }

  function Phases(ws: seq<Worker>): nat {
    if ws == [] then 0 else Phase(ws[0]) + Phases(ws[1..])
  }

  /** Work left: 5 for an unsent job, a few units for each worker phase, 1 for a queued result. */
  function Measure(cfg: Config, s: State): int {
    5 * (cfg.jobs - s.next) + (if s.closed then 0 else 1) + Phases(s.workers) + |s.queue|
    + (match s.collector case Collecting => 2 case Joining(_) => 1 case Returned(_) => 0)
  }

  lemma {:induction false} PhasesUpdate(ws: seq<Worker>, i: nat, w: Worker)
    requires i < |ws|
    ensures Phases(ws[i := w]) + Phase(ws[i]) == Phases(ws) + Phase(w)
  {
    if i > 0 {
      assert ws[i := w][1..] == ws[1..][i - 1 := w];
      PhasesUpdate(ws[1..], i - 1, w);
    } else {
      assert ws[i := w][1..] == ws[1..];
    }
  }

  /** Every event uses up some of the measure, in every state. */
  lemma StepMeasure(cfg: Config, s: State, e: Event)
    requires Enabled(cfg, s, e)
    ensures Measure(cfg, Next(cfg, s, e)) < Measure(cfg, s)
  {
    match e {
      case StartUp(w) => PhasesUpdate(s.workers, w, Next(cfg, s, e).workers[w]);
      case Take(w) => PhasesUpdate(s.workers, w, Checking(s.next));
      case Drain(w) => PhasesUpdate(s.workers, w, Exited);
      case Check(w) => PhasesUpdate(s.workers, w, Next(cfg, s, e).workers[w]);
      case Finish(w, o) => PhasesUpdate(s.workers, w, Sending(JobResult(s.workers[w].job, o)));
      case Send(w) => PhasesUpdate(s.workers, w, AfterSend(s.workers[w].result));
      case Cancel(w) => PhasesUpdate(s.workers, w, Exited);
      case _ =>
    }
  }

  lemma {:induction false} RunBounded(cfg: Config, s: State, es: seq<Event>, t: State)
    requires Run(cfg, s, es, t) && s.next <= cfg.jobs
    ensures |es| + Measure(cfg, t) <= Measure(cfg, s) && t.next <= cfg.jobs
    decreases |es|
  {
    if es != [] {
      StepMeasure(cfg, s, es[0]);
      RunBounded(cfg, Next(cfg, s, es[0]), es[1..], t);
    }
  }

  lemma {:induction false} InitialPhases(ws: seq<Worker>)
    requires forall i :: 0 <= i < |ws| ==> ws[i].Starting?
    ensures Phases(ws) == 4 * |ws|
  {
    if ws != [] {
      InitialPhases(ws[1..]);
    }
  }

  /** No schedule is longer than 5 * jobs + 4 * workers + 3 events: the pool cannot spin. */
  lemma SchedulesAreBounded(cfg: Config, es: seq<Event>, t: State)
    requires Run(cfg, Init(cfg), es, t)
    ensures |es| <= 5 * cfg.jobs + 4 * |cfg.starts| + 3
  {
    InitialPhases(Init(cfg).workers);
    RunBounded(cfg, Init(cfg), es, t);
  }
}
