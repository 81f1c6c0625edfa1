/** What the results say about the schedule: every result is what some worker's `Finish` made of the job it held, and
    the counters of a run without error count those events. */
module WorkerPoolResults {
  import opened WorkerPool
  import opened WorkerPoolProgress

  // ---------------------------------------------------------------- the history of a schedule

  /** How often workers finish a file with outcome o. */
  function FinishEvents(es: seq<Event>, o: Outcome): nat {
    if es == [] then 0
    else (if es[0].Finish? && es[0].outcome == o then 1 else 0) + FinishEvents(es[1..], o)
  }

  /** The file each `Finish` of a schedule is about, with its outcome. */
  ghost function Finished(cfg: Config, s: State, es: seq<Event>): seq<Result>
    decreases |es|
  {
    if es == [] || !Enabled(cfg, s, es[0]) then []
    else FinishedBy(s, es[0]) + Finished(cfg, Next(cfg, s, es[0]), es[1..])
  }

  function FinishedBy(s: State, e: Event): seq<Result> {
    if e.Finish? && e.w < |s.workers| && s.workers[e.w].Processing? then [JobResult(s.workers[e.w].job, e.outcome)]
    else []
  }

  /** A way to weigh results; those of failed starts weigh nothing. */
  type Scale = Result -> nat

  function ResultsOf(o: Outcome): Scale {
    (r: Result) => if r.JobResult? && r.outcome == o then 1 else 0
  }

  function CopiesOf(r: Result): Scale {
    (q: Result) => if q.JobResult? && q == r then 1 else 0
  }

  function Weighed(rs: seq<Result>, g: Scale): nat {
    if rs == [] then 0 else g(rs[0]) + Weighed(rs[1..], g)
  }

  function Pending(w: Worker, g: Scale): nat {
    if w.Sending? then g(w.result) else 0
  }

  /** The weight of the results that workers are about to send. */
  function Unsent(ws: seq<Worker>, g: Scale): nat {
    if ws == [] then 0 else Pending(ws[0], g) + Unsent(ws[1..], g)
  }

  function AllResults(s: State, g: Scale): nat {
    Unsent(s.workers, g) + Weighed(s.queue, g) + Weighed(s.received, g)
  }

  lemma {:induction false} UnsentUpdate(ws: seq<Worker>, i: nat, w: Worker, g: Scale)
    requires i < |ws|
    ensures Unsent(ws[i := w], g) + Pending(ws[i], g) == Unsent(ws, g) + Pending(w, g)
  {
    if i > 0 {
      assert ws[i := w][1..] == ws[1..][i - 1 := w];
      UnsentUpdate(ws[1..], i - 1, w, g);
    } else {
      assert ws[i := w][1..] == ws[1..];
    }
  }

  lemma {:induction false} WeighedConcat(rs: seq<Result>, qs: seq<Result>, g: Scale)
    ensures Weighed(rs + qs, g) == Weighed(rs, g) + Weighed(qs, g)
  {
    if rs == [] {
      assert rs + qs == qs;
    } else {
      assert (rs + qs)[1..] == rs[1..] + qs;
      WeighedConcat(rs[1..], qs, g);
    }
  }

  lemma WeighedOne(r: Result, g: Scale)
    ensures Weighed([r], g) == g(r) && Weighed([], g) == 0
  {
  }

  // ---------------------------------------------------------------- results are conserved

  lemma StepResults(cfg: Config, s: State, e: Event, g: Scale)
    requires Enabled(cfg, s, e) && g(StartFailure) == 0
    ensures AllResults(Next(cfg, s, e), g) == AllResults(s, g) + Weighed(FinishedBy(s, e), g)
  {
    hide Unsent, Weighed;
    var t := Next(cfg, s, e);
    WeighedOne(StartFailure, g);
    match e {
      case StartUp(w) => UnsentUpdate(s.workers, w, t.workers[w], g);
      case Take(w) => UnsentUpdate(s.workers, w, t.workers[w], g);
      case Drain(w) => UnsentUpdate(s.workers, w, t.workers[w], g);
      case Check(w) => UnsentUpdate(s.workers, w, t.workers[w], g);
      case Finish(w, o) => FinishResults(cfg, s, w, o, g);
      case Send(w) => SendResults(cfg, s, w, g);
      case Cancel(w) => UnsentUpdate(s.workers, w, t.workers[w], g);
      case Collect => CollectResults(cfg, s, g);
      case _ =>
    }
  }

  lemma FinishResults(cfg: Config, s: State, w: nat, o: Outcome, g: Scale)
    requires Enabled(cfg, s, Finish(w, o))
    ensures AllResults(Next(cfg, s, Finish(w, o)), g) == AllResults(s, g) + Weighed(FinishedBy(s, Finish(w, o)), g)
  {
    hide Unsent, Weighed;
    WeighedOne(JobResult(s.workers[w].job, o), g);
    UnsentUpdate(s.workers, w, Next(cfg, s, Finish(w, o)).workers[w], g);
  }

  lemma SendResults(cfg: Config, s: State, w: nat, g: Scale)
    requires Enabled(cfg, s, Send(w))
    ensures AllResults(Next(cfg, s, Send(w)), g) == AllResults(s, g)
  {
    hide Unsent, Weighed;
    var r := s.workers[w].result;
    UnsentUpdate(s.workers, w, AfterSend(r), g);
    WeighedConcat(s.queue, [r], g);
    WeighedOne(r, g);
  }

  lemma CollectResults(cfg: Config, s: State, g: Scale)
    requires Enabled(cfg, s, Collect)
    ensures AllResults(Next(cfg, s, Collect), g) == AllResults(s, g)
  {
    hide Unsent, Weighed;
    var r := s.queue[0];
    WeighedConcat([r], s.queue[1..], g);
    WeighedConcat(s.received, [r], g);
    assert s.queue == [r] + s.queue[1..];
  }

  lemma {:induction false} RunResults(cfg: Config, s: State, es: seq<Event>, t: State, g: Scale)
    requires Run(cfg, s, es, t) && g(StartFailure) == 0
    ensures AllResults(t, g) == AllResults(s, g) + Weighed(Finished(cfg, s, es), g)
    decreases |es|
  {
    hide Next, Enabled, AllResults, FinishedBy;
    if es != [] {
      var u := Next(cfg, s, es[0]);
      StepResults(cfg, s, es[0], g);
      RunResults(cfg, u, es[1..], t, g);
      WeighedConcat(FinishedBy(s, es[0]), Finished(cfg, u, es[1..]), g);
    }
  }

  lemma {:induction false} NoneUnsent(ws: seq<Worker>, g: Scale)
    requires forall w :: 0 <= w < |ws| ==> !ws[w].Sending?
    ensures Unsent(ws, g) == 0
  {
    if ws != [] {
      NoneUnsent(ws[1..], g);
    }
  }

  /** Every schedule: any weighing of results finds in the results read, queued and about to be sent exactly what the
      workers finished; so no result is lost, made up, duplicated or altered on its way. */
  lemma ResultsConserved(cfg: Config, es: seq<Event>, s: State, g: Scale)
    requires Run(cfg, Init(cfg), es, s) && g(StartFailure) == 0
    ensures Weighed(s.received, g) + Weighed(s.queue, g) + Unsent(s.workers, g)
         == Weighed(Finished(cfg, Init(cfg), es), g)
  {
    RunResults(cfg, Init(cfg), es, s, g);
    NoneUnsent(Init(cfg).workers, g);
  }

  // ---------------------------------------------------------------- outcomes and single results

  lemma {:induction false} FinishedOutcomes(cfg: Config, s: State, es: seq<Event>, t: State, o: Outcome)
    requires Run(cfg, s, es, t)
    ensures Weighed(Finished(cfg, s, es), ResultsOf(o)) == FinishEvents(es, o)
    decreases |es|
  {
    hide Next;
    if es != [] {
      var u := Next(cfg, s, es[0]);
      FinishedOutcomes(cfg, u, es[1..], t, o);
      WeighedConcat(FinishedBy(s, es[0]), Finished(cfg, u, es[1..]), ResultsOf(o));
      assert es[0].Finish? ==> Weighed(FinishedBy(s, es[0]), ResultsOf(o)) == ResultsOf(o)(FinishedBy(s, es[0])[0]);
    }
  }

  lemma {:induction false} WeighedOutcomes(rs: seq<Result>, o: Outcome)
    ensures Weighed(rs, ResultsOf(o)) == Outcomes(rs, o)
  {
    if rs != [] {
      WeighedOutcomes(rs[1..], o);
    }
  }

  /** Every schedule: the workers finished as many files with an outcome as there are results with it. */
  lemma OutcomesConserved(cfg: Config, es: seq<Event>, s: State, o: Outcome)
    requires Run(cfg, Init(cfg), es, s)
    ensures FinishEvents(es, o) == Outcomes(s.received, o) + Outcomes(s.queue, o) + Unsent(s.workers, ResultsOf(o))
  {
    ResultsConserved(cfg, es, s, ResultsOf(o));
    FinishedOutcomes(cfg, Init(cfg), es, s, o);
    WeighedOutcomes(s.received, o);
    WeighedOutcomes(s.queue, o);
  }

  lemma {:induction false} WeighedCopies(rs: seq<Result>, r: Result)
    requires r.JobResult?
    ensures Weighed(rs, CopiesOf(r)) > 0 <==> r in rs
  {
    if rs != [] {
      WeighedCopies(rs[1..], r);
    }
  }

  lemma {:induction false} OnlyFailedStarts(rs: seq<Result>, g: Scale)
    requires Reported(rs, Each()) == 0 && g(StartFailure) == 0
    ensures Weighed(rs, g) == 0
  {
    if rs != [] {
      OnlyFailedStarts(rs[1..], g);
    }
  }

  // ---------------------------------------------------------------- when the call has returned

  lemma ReturnedResults(cfg: Config, es: seq<Event>, s: State, g: Scale)
    requires Run(cfg, Init(cfg), es, s) && g(StartFailure) == 0 && s.collector.Returned?
    ensures Weighed(s.received, g) + Weighed(s.queue, g) == Weighed(Finished(cfg, Init(cfg), es), g)
    ensures s.collector == Returned(false) ==> Weighed(s.queue, g) == 0
  {
    hide Weighed, Run, Reported, PhasesOk;
    assert Reachable(cfg, s);
    ReachableInv(cfg, s);
    ResultsConserved(cfg, es, s, g);
    NoneUnsent(s.workers, g);
    if s.collector == Returned(false) {
      QueueHasNoReport(cfg, s);
      OnlyFailedStarts(s.queue, g);
    }
  }

  lemma QueueHasNoReport(cfg: Config, s: State)
    requires Inv(cfg, s) && s.collector == Returned(false)
    ensures Reported(s.queue, Each()) == 0
  {
    NoErrors(s.received);
    CountResults(s.received);
  }

  /** A call that returns without an error counts as processed exactly the files some worker processed, and as skipped
      exactly those some worker skipped. No worker failed, and the result read about a file is the outcome its worker
      had for it. */
  lemma CountersAreTheWork(cfg: Config, es: seq<Event>, s: State, j: nat, o: Outcome)
    requires Run(cfg, Init(cfg), es, s) && s.collector == Returned(false)
    ensures s.processed == FinishEvents(es, Processed) && s.skipped == FinishEvents(es, Skipped)
    ensures FinishEvents(es, Failed) == 0
    ensures JobResult(j, o) in s.received <==> JobResult(j, o) in Finished(cfg, Init(cfg), es)
  {
    hide Run, Finished, Outcomes;
    assert Reachable(cfg, s);
    ReachableInv(cfg, s);
    OutcomeCounted(cfg, es, s, Processed);
    OutcomeCounted(cfg, es, s, Skipped);
    OutcomeCounted(cfg, es, s, Failed);
    NoneFailed(s.received);
    var r := JobResult(j, o);
    ReturnedResults(cfg, es, s, CopiesOf(r));
    WeighedCopies(s.received, r);
    WeighedCopies(Finished(cfg, Init(cfg), es), r);
  }

  lemma OutcomeCounted(cfg: Config, es: seq<Event>, s: State, o: Outcome)
    requires Run(cfg, Init(cfg), es, s) && s.collector == Returned(false)
    ensures FinishEvents(es, o) == Outcomes(s.received, o)
  {
    hide Run;
    ReturnedResults(cfg, es, s, ResultsOf(o));
    FinishedOutcomes(cfg, Init(cfg), es, s, o);
    WeighedOutcomes(s.received, o);
  }

  lemma {:induction false} NoneFailed(rs: seq<Result>)
    ensures (forall i :: 0 <= i < |rs| ==> !rs[i].IsError()) ==> Outcomes(rs, Failed) == 0
  {
    if rs != [] {
      NoneFailed(rs[1..]);
    }
  }

  /** With translators that all start, a call that has returned reports an error exactly when some worker failed. */
  lemma ErrorIffSomeWorkerFailed(cfg: Config, es: seq<Event>, s: State)
    requires Run(cfg, Init(cfg), es, s) && Failing(cfg.starts) == 0 && s.collector.Returned?
    ensures s.collector.failed <==> FinishEvents(es, Failed) > 0
  {
    hide Run;
    assert Reachable(cfg, s);
    ErrorsAreReported(cfg, s);
    ReturnedResults(cfg, es, s, ResultsOf(Failed));
    FinishedOutcomes(cfg, Init(cfg), es, s, Failed);
    FailuresAmong(s.received);
    FailuresAmong(s.queue);
  }

  lemma {:induction false} FailuresAmong(rs: seq<Result>)
    ensures Weighed(rs, ResultsOf(Failed)) > 0 <==> exists r :: r in rs && r.JobResult? && r.outcome.Failed?
  {
    if rs != [] {
      FailuresAmong(rs[1..]);
    }
  }

  // ---------------------------------------------------------------- after cancellation

  function Running(ws: seq<Worker>): nat {
    if ws == [] then 0 else (if ws[0].Processing? then 1 else 0) + Running(ws[1..])
  }

  lemma {:induction false} RunningUpdate(ws: seq<Worker>, i: nat, w: Worker)
    requires i < |ws|
    ensures Running(ws[i := w]) + (if ws[i].Processing? then 1 else 0)
         == Running(ws) + (if w.Processing? then 1 else 0)
  {
    if i > 0 {
      assert ws[i := w][1..] == ws[1..][i - 1 := w];
      RunningUpdate(ws[1..], i - 1, w);
    } else {
      assert ws[i := w][1..] == ws[1..];
    }
  }

  function FinishesOf(e: Event): nat {
    if e.Finish? then 1 else 0
  }

  function Finishes(es: seq<Event>): nat {
    if es == [] then 0 else FinishesOf(es[0]) + Finishes(es[1..])
  }

  lemma StepCancelled(cfg: Config, s: State, e: Event)
    requires Enabled(cfg, s, e) && s.cancelled
    ensures var t := Next(cfg, s, e);
            t.cancelled && Running(t.workers) + FinishesOf(e) == Running(s.workers)
  {
    hide Running;
    var t := Next(cfg, s, e);
    match e {
      case StartUp(w) => RunningUpdate(s.workers, w, t.workers[w]);
      case Take(w) => RunningUpdate(s.workers, w, t.workers[w]);
      case Drain(w) => RunningUpdate(s.workers, w, t.workers[w]);
      case Check(w) => RunningUpdate(s.workers, w, t.workers[w]);
      case Finish(w, _) => RunningUpdate(s.workers, w, t.workers[w]);
      case Send(w) => RunningUpdate(s.workers, w, t.workers[w]);
      case Cancel(w) => RunningUpdate(s.workers, w, t.workers[w]);
      case _ =>
    }
  }

  /** Once a failure has cancelled the context, only files already being worked on are finished. */
  lemma {:induction false} NothingStartsAfterCancel(cfg: Config, s: State, es: seq<Event>, t: State)
    requires Run(cfg, s, es, t) && s.cancelled
    ensures Finishes(es) + Running(t.workers) == Running(s.workers)
    decreases |es|
  {
    if es != [] {
      StepCancelled(cfg, s, es[0]);
      NothingStartsAfterCancel(cfg, Next(cfg, s, es[0]), es[1..], t);
    }
  }
}
