/** When can a schedule of the document runner wedge, and what does a finished run mean? */
module WorkerPoolProgress {
  import opened WorkerPool

  /** The exact condition under which no schedule wedges. At least one worker is needed for any job. Start-up
      failures put results on the channel that its capacity does not account for, so with two or more of
      them a schedule survives only if every worker fails and there are enough jobs to size the channel. */
  predicate Safe(cfg: Config) {
    var failing := Failing(cfg.starts);
    && (cfg.jobs == 0 || cfg.starts != [])
    && (|| failing == 0
        || (cfg.jobs >= 1 && (failing == 1 || (failing == |cfg.starts| && failing <= cfg.jobs + 1))))
  }

  lemma {:induction false} AllFail(starts: seq<bool>)
    ensures Failing(starts) <= |starts|
    ensures Failing(starts) == |starts| ==> forall w :: 0 <= w < |starts| ==> !starts[w]
    ensures Failing(starts) == 0 ==> forall w :: 0 <= w < |starts| ==> starts[w]
  {
    if starts != [] {
      AllFail(starts[1..]);
      forall w | 0 <= w < |starts|
        ensures Failing(starts) == |starts| ==> !starts[w]
        ensures Failing(starts) == 0 ==> starts[w]
      {
        if w > 0 {
          assert starts[w] == starts[1..][w - 1];
        }
      }
    }
  }

  /** If all translators fail, no job is ever taken. */
  lemma NoJobTaken(cfg: Config, s: State)
    requires Inv(cfg, s) && Failing(cfg.starts) == |cfg.starts|
    ensures Held(s.workers, Each()) == Reported(s.queue, Each()) == Reported(s.received, Each()) == 0
  {
    AllFail(cfg.starts);
    assert s.next == 0;
    SpanEach(0, cfg.jobs);
  }

  lemma FirstReport(rs: seq<Result>)
    ensures rs != [] && rs[0].JobResult? ==> Reported(rs, Each()) >= 1
  {
  }

  // ---------------------------------------------------------------- safe configurations never wedge

  lemma WorkerMoves(cfg: Config, s: State, w: nat)
    requires Inv(cfg, s) && w < |s.workers| && !s.workers[w].Exited?
    requires s.workers[w].Sending? ==> |s.queue| < cfg.jobs
    ensures exists e :: Enabled(cfg, s, e)
  {
    match s.workers[w] {
      case Starting(_) => assert Enabled(cfg, s, StartUp(w));
      case Receiving =>
        if s.closed {
          assert Enabled(cfg, s, Drain(w));
        } else if s.next < cfg.jobs {
          assert Enabled(cfg, s, Take(w));
        } else {
          assert Enabled(cfg, s, CloseJobs);
        }
      case Checking(_) => assert Enabled(cfg, s, Check(w));
      case Processing(_) => assert Enabled(cfg, s, Finish(w, Processed));
      case Sending(_) => assert Enabled(cfg, s, Send(w));
      case Cancelling => assert Enabled(cfg, s, Cancel(w));
    }
  }

  /** A worker that cannot send while nobody reads needs more start-up failures than were counted on. */
  lemma BlockedSend(cfg: Config, s: State, w: nat)
    requires Inv(cfg, s) && w < |s.workers| && s.workers[w].Sending? && |s.queue| >= cfg.jobs
    ensures |s.received| + 1 <= Failing(cfg.starts)
    ensures Failing(cfg.starts) == |cfg.starts| ==> cfg.jobs + |s.received| + 1 <= Failing(cfg.starts)
    ensures Failing(cfg.starts) == |cfg.starts| ==> StartFailures(s.received) == |s.received|
  {
    WorkerShare(s.workers, w, Each());
    CountResults(s.queue);
    CountResults(s.received);
    if Failing(cfg.starts) == |cfg.starts| {
      NoJobTaken(cfg, s);
    }
  }

  lemma SendersNeverBlockForever(cfg: Config, s: State, w: nat)
    requires Inv(cfg, s) && Safe(cfg) && s.collector.Joining?
    requires w < |s.workers| && s.workers[w].Sending?
    ensures |s.queue| < cfg.jobs
  {
    if !s.collector.failed {
      NoErrors(s.received);
    }
    if |s.queue| >= cfg.jobs {
      BlockedSend(cfg, s, w);
    }
  }

  /** While all workers are gone and no result is left, the collector has read all it waits for. */
  lemma CollectorNeverStarves(cfg: Config, s: State)
    requires Inv(cfg, s) && Safe(cfg) && s.collector.Collecting? && AllExited(s.workers) && s.queue == []
    ensures |s.received| >= cfg.jobs
  {
    NothingHeld(s.workers, Each());
    NoErrors(s.received);
    CountResults(s.received);
    AllFail(cfg.starts);
    assert !FailureReported(s);
    assert s.dropped == [];
    SpanEach(s.next, cfg.jobs);
    if cfg.jobs > 0 {
      assert PhaseOk(cfg.starts[0], s.workers[0], s.closed, s.cancelled);
    }
  }

  lemma SafeStatesMove(cfg: Config, s: State)
    requires Inv(cfg, s) && Safe(cfg) && !s.collector.Returned?
    ensures exists e :: Enabled(cfg, s, e)
  {
    if s.collector.Collecting? && |s.received| >= cfg.jobs {
      assert Enabled(cfg, s, EndLoop);
    } else if s.collector.Collecting? && s.queue != [] {
      assert Enabled(cfg, s, Collect);
    } else if AllExited(s.workers) {
      if s.collector.Collecting? {
        CollectorNeverStarves(cfg, s);
        assert false;
      }
      assert Enabled(cfg, s, Join);
    } else {
      var w :| 0 <= w < |s.workers| && !s.workers[w].Exited?;
      if s.workers[w].Sending? && s.collector.Joining? {
        SendersNeverBlockForever(cfg, s, w);
      }
      WorkerMoves(cfg, s, w);
    }
  }

  // ---------------------------------------------------------------- unsafe configurations can wedge

  lemma {:induction false} RunAppend(cfg: Config, s: State, es: seq<Event>, t: State, fs: seq<Event>, u: State)
    requires Run(cfg, s, es, t) && Run(cfg, t, fs, u)
    ensures Run(cfg, s, es + fs, u)
    decreases |es|
  {
    if es == [] {
      assert es + fs == fs;
    } else {
      assert (es + fs)[1..] == es[1..] + fs;
      RunAppend(cfg, Next(cfg, s, es[0]), es[1..], t, fs, u);
    }
  }

  lemma RunOne(cfg: Config, s: State, es: seq<Event>, t: State, e: Event)
    requires Run(cfg, s, es, t) && Enabled(cfg, t, e)
    ensures Run(cfg, s, es + [e], Next(cfg, t, e))
  {
    assert [e][1..] == [];
    assert Run(cfg, Next(cfg, t, e), [], Next(cfg, t, e));
    RunAppend(cfg, s, es, t, [e], Next(cfg, t, e));
  }

  /** Every state has a schedule that runs until nothing can move. */
  lemma {:induction false} MaximalRun(cfg: Config, s: State) returns (es: seq<Event>, t: State)
    requires s.next <= cfg.jobs
    ensures Run(cfg, s, es, t) && forall e :: !Enabled(cfg, t, e)
    decreases Measure(cfg, s)
  {
    if e :| Enabled(cfg, s, e) {
      StepMeasure(cfg, s, e);
      var rest;
      rest, t := MaximalRun(cfg, Next(cfg, s, e));
      es := [e] + rest;
      assert es[1..] == rest;
    } else {
      es, t := [], s;
    }
  }

  /** No worker at all, a channel without capacity, or more failures than an all-failing pool can report. */
  lemma NeverReturns(cfg: Config, s: State)
    requires Inv(cfg, s) && !Safe(cfg)
    requires cfg.jobs == 0 || Failing(cfg.starts) <= 1 || Failing(cfg.starts) == |cfg.starts|
    ensures !s.collector.Returned?
  {
    if s.collector.Returned? {
      NothingHeld(s.workers, Each());
      CountResults(s.queue);
      CountResults(s.received);
      AllFail(cfg.starts);
      if cfg.jobs > 0 {
        NoJobTaken(cfg, s);
        FirstReport(s.received);
      }
    }
  }

  lemma {:induction false} FindFailing(starts: seq<bool>) returns (w: nat)
    requires Failing(starts) >= 1
    ensures w < |starts| && !starts[w] && Failing(starts[..w]) == 0
  {
    if !starts[0] {
      w := 0;
    } else {
      var v := FindFailing(starts[1..]);
      w := v + 1;
      assert starts[..w][1..] == starts[1..][..v];
    }
  }

  lemma {:induction false} FailingSplit(xs: seq<bool>, ys: seq<bool>)
    ensures Failing(xs + ys) == Failing(xs) + Failing(ys)
  {
    if xs == [] {
      assert xs + ys == ys;
    } else {
      assert (xs + ys)[1..] == xs[1..] + ys;
      FailingSplit(xs[1..], ys);
    }
  }

  lemma TwoFailing(starts: seq<bool>) returns (a: nat, b: nat)
    requires Failing(starts) >= 2
    ensures a < b < |starts| && !starts[a] && !starts[b]
  {
    a := FindFailing(starts);
    assert starts == starts[..a] + [starts[a]] + starts[a + 1..];
    FailingSplit(starts[..a] + [starts[a]], starts[a + 1..]);
    FailingSplit(starts[..a], [starts[a]]);
    var d := FindFailing(starts[a + 1..]);
    b := a + 1 + d;
  }

  lemma {:induction false} SomeStarts(starts: seq<bool>) returns (c: nat)
    requires Failing(starts) < |starts|
    ensures c < |starts| && starts[c]
  {
    if starts[0] {
      c := 0;
    } else {
      var d := SomeStarts(starts[1..]);
      c := d + 1;
    }
  }

  /** The collector has stopped reading, b has still to report its failure, c has filled k slots. */
  ghost predicate Filling(cfg: Config, s: State, b: nat, c: nat, k: nat) {
    && s.collector == Joining(true) && !s.closed && !s.cancelled
    && |s.queue| == k == s.next <= cfg.jobs
    && b < |s.workers| && s.workers[b] == Starting(false)
    && c < |s.workers| && s.workers[c] == Receiving
  }

  lemma FillOne(cfg: Config, s: State, b: nat, c: nat, k: nat) returns (es: seq<Event>, t: State)
    requires Filling(cfg, s, b, c, k) && k < cfg.jobs
    ensures Run(cfg, s, es, t) && Filling(cfg, t, b, c, k + 1)
  {
    var s1 := Next(cfg, s, Take(c));
    RunOne(cfg, s, [], s, Take(c));
    var s2 := Next(cfg, s1, Check(c));
    RunOne(cfg, s, [] + [Take(c)], s1, Check(c));
    var s3 := Next(cfg, s2, Finish(c, Processed));
    RunOne(cfg, s, [] + [Take(c)] + [Check(c)], s2, Finish(c, Processed));
    t := Next(cfg, s3, Send(c));
    RunOne(cfg, s, [] + [Take(c)] + [Check(c)] + [Finish(c, Processed)], s3, Send(c));
    es := [] + [Take(c)] + [Check(c)] + [Finish(c, Processed)] + [Send(c)];
  }

  lemma {:induction false} FillUp(cfg: Config, s: State, b: nat, c: nat, k: nat) returns (es: seq<Event>, t: State)
    requires Filling(cfg, s, b, c, k)
    ensures Run(cfg, s, es, t) && Filling(cfg, t, b, c, cfg.jobs)
    decreases cfg.jobs - k
  {
    if k == cfg.jobs {
      es, t := [], s;
    } else {
      var es1, s1 := FillOne(cfg, s, b, c, k);
      var es2, t2 := FillUp(cfg, s1, b, c, k + 1);
      RunAppend(cfg, s, es1, s1, es2, t2);
      es, t := es1 + es2, t2;
    }
  }

  lemma StartFilling(cfg: Config, a: nat, b: nat, c: nat) returns (es: seq<Event>, t: State)
    requires cfg.jobs >= 1 && a < |cfg.starts| && b < |cfg.starts| && c < |cfg.starts| && a != b
    requires !cfg.starts[a] && !cfg.starts[b] && cfg.starts[c]
    ensures Run(cfg, Init(cfg), es, t) && Filling(cfg, t, b, c, 0)
  {
    var s0 := Init(cfg);
    var s1 := Next(cfg, s0, StartUp(a));
    RunOne(cfg, s0, [], s0, StartUp(a));
    var s2 := Next(cfg, s1, Send(a));
    RunOne(cfg, s0, [] + [StartUp(a)], s1, Send(a));
    var s3 := Next(cfg, s2, Collect);
    RunOne(cfg, s0, [] + [StartUp(a)] + [Send(a)], s2, Collect);
    t := Next(cfg, s3, StartUp(c));
    RunOne(cfg, s0, [] + [StartUp(a)] + [Send(a)] + [Collect], s3, StartUp(c));
    es := [] + [StartUp(a)] + [Send(a)] + [Collect] + [StartUp(c)];
  }

  /** A full channel that nobody reads, and a worker that still has to write to it. */
  ghost predicate Jammed(cfg: Config, s: State, b: nat) {
    && s.collector.Joining? && |s.queue| >= cfg.jobs
    && b < |s.workers| && (s.workers[b] == Starting(false) || s.workers[b] == Sending(StartFailure))
  }

  lemma {:induction false} JammedForever(cfg: Config, s: State, es: seq<Event>, t: State, b: nat)
    requires Jammed(cfg, s, b) && Run(cfg, s, es, t)
    ensures Jammed(cfg, t, b)
    decreases |es|
  {
    if es != [] {
      assert Jammed(cfg, Next(cfg, s, es[0]), b);
      JammedForever(cfg, Next(cfg, s, es[0]), es[1..], t, b);
    }
  }

  /** Two failing workers and a working one: the first failure stops the collector, the working one fills
      the channel, the second failure can never be delivered. */
  lemma MixedPoolJams(cfg: Config) returns (s: State)
    requires cfg.jobs >= 1 && 2 <= Failing(cfg.starts) < |cfg.starts|
    ensures Reachable(cfg, s) && Stuck(cfg, s)
  {
    var a, b := TwoFailing(cfg.starts);
    var c := SomeStarts(cfg.starts);
    var es1, s1 := StartFilling(cfg, a, b, c);
    var es2, s2 := FillUp(cfg, s1, b, c, 0);
    RunAppend(cfg, Init(cfg), es1, s1, es2, s2);
    var es3, s3 := MaximalRun(cfg, s2);
    RunAppend(cfg, Init(cfg), es1 + es2, s2, es3, s3);
    JammedForever(cfg, s2, es3, s3, b);
    s := s3;
  }

  lemma UnsafePoolsWedge(cfg: Config) returns (s: State)
    requires !Safe(cfg)
    ensures Reachable(cfg, s) && Stuck(cfg, s)
  {
    AllFail(cfg.starts);
    if cfg.jobs >= 1 && 2 <= Failing(cfg.starts) < |cfg.starts| {
      s := MixedPoolJams(cfg);
    } else {
      var es, t := MaximalRun(cfg, Init(cfg));
      s := t;
      ReachableInv(cfg, s);
      NeverReturns(cfg, s);
    }
  }

  /** The pool can get stuck under some schedule exactly when its configuration is not `Safe`. In
      particular it never gets stuck when every translator starts and there is a worker. */
  lemma WedgesExactlyWhenUnsafe(cfg: Config)
    ensures (exists s :: Reachable(cfg, s) && Stuck(cfg, s)) <==> !Safe(cfg)
    ensures Failing(cfg.starts) == 0 && cfg.starts != [] ==> Safe(cfg)
  {
    if Safe(cfg) {
      forall s | Reachable(cfg, s)
        ensures !Stuck(cfg, s)
      {
        ReachableInv(cfg, s);
        if !s.collector.Returned? {
          SafeStatesMove(cfg, s);
        }
      }
    } else {
      var s := UnsafePoolsWedge(cfg);
    }
  }

  /** With translators that all start, a sender never finds the result channel full. */
  lemma SendersNeverBlock(cfg: Config, s: State, w: nat)
    requires Reachable(cfg, s) && Failing(cfg.starts) == 0
    requires w < |s.workers| && s.workers[w].Sending?
    ensures Enabled(cfg, s, Send(w))
  {
    ReachableInv(cfg, s);
    if |s.queue| >= cfg.jobs {
      BlockedSend(cfg, s, w);
      assert false;
    }
  }

  // ---------------------------------------------------------------- what a result means

  /** Where the collector has read a result about job j. */
  ghost function ResultsAbout(rs: seq<Result>, j: nat): set<nat> {
    set i: nat | i < |rs| && rs[i].JobResult? && rs[i].job == j
  }

  lemma {:induction false} CountJob(rs: seq<Result>, j: nat)
    ensures Reported(rs, Only(j)) == |ResultsAbout(rs, j)|
    decreases |rs|
  {
    if rs == [] {
      assert ResultsAbout(rs, j) == {};
    } else {
      var n := |rs| - 1;
      var r := rs[n];
      CountJob(rs[..n], j);
      assert rs[..n] + [r] == rs;
      ReportedAppend(rs[..n], r, Only(j));
      if r.JobResult? && r.job == j {
        assert ResultsAbout(rs, j) == ResultsAbout(rs[..n], j) + {n};
      } else {
        assert ResultsAbout(rs, j) == ResultsAbout(rs[..n], j);
      }
    }
  }

  /** A run that returns without an error has handled every file exactly once, each successfully, and its two
      counters add up to the number of files. */
  lemma CleanRunHandlesEveryFileOnce(cfg: Config, s: State)
    requires Reachable(cfg, s) && s.collector == Returned(false)
    ensures s.processed + s.skipped == cfg.jobs == |s.received|
    ensures forall i :: 0 <= i < |s.received| ==> s.received[i].JobResult? && !s.received[i].outcome.Failed?
    ensures forall j: nat :: j < cfg.jobs ==> |ResultsAbout(s.received, j)| == 1
  {
    ReachableInv(cfg, s);
    NoErrors(s.received);
    CountResults(s.received);
    SpanEach(s.next, cfg.jobs);
    forall j: nat | j < cfg.jobs
      ensures |ResultsAbout(s.received, j)| == 1
    {
      HandledOnce(cfg, s, j);
    }
  }

  lemma HandledOnce(cfg: Config, s: State, j: nat)
    requires Reachable(cfg, s) && j < cfg.jobs && s.next == cfg.jobs && AllExited(s.workers)
    requires Reported(s.queue, Each()) == 0 && Total(s.dropped, Each()) == 0
    ensures |ResultsAbout(s.received, j)| == 1
  {
    Conservation(cfg, s, Only(j));
    SpanOnly(0, cfg.jobs, j);
    NothingHeld(s.workers, Only(j));
    NoReports(s.queue, Only(j));
    NoneDropped(s.dropped);
    CountJob(s.received, j);
  }

  lemma {:induction false} NoReports(rs: seq<Result>, f: Weighting)
    requires Reported(rs, Each()) == 0
    ensures Reported(rs, f) == 0
  {
    if rs != [] {
      NoReports(rs[1..], f);
    }
  }

  lemma NoneDropped(jobs: seq<nat>)
    requires Total(jobs, Each()) == 0
    ensures jobs == []
  {
  }

  /** A run that returns with an error stopped at the first error result: everything read before it succeeded
      and is counted. A job is dropped only if a failed job was reported before. */
  lemma FailedRunStopsAtFirstError(cfg: Config, s: State)
    requires Reachable(cfg, s) && s.collector == Returned(true)
    ensures s.received != [] && s.received[|s.received| - 1].IsError()
    ensures forall i :: 0 <= i < |s.received| - 1 ==> !s.received[i].IsError()
    ensures s.processed + s.skipped == |s.received| - 1
    ensures s.dropped != [] ==> FailureReported(s)
  {
    ReachableInv(cfg, s);
    var n := |s.received| - 1;
    NoErrors(s.received[..n]);
    assert s.received == s.received[..n] + [s.received[n]];
    OutcomesAppend(s.received[..n], s.received[n], Processed);
    OutcomesAppend(s.received[..n], s.received[n], Skipped);
  }

  /** With translators that all start, the call reports an error exactly when some job failed. */
  lemma ErrorsAreReported(cfg: Config, s: State)
    requires Reachable(cfg, s) && Failing(cfg.starts) == 0 && s.collector.Returned?
    ensures s.collector.failed <==> FailureReported(s)
  {
    hide Weight, PhasesOk;
    ReachableInv(cfg, s);
    if s.collector.failed {
      var r := s.received[|s.received| - 1];
      NoStartFailures(s.received, r);
      assert r in s.received;
    } else {
      CleanQueueIsEmpty(cfg, s);
    }
  }

  lemma CleanQueueIsEmpty(cfg: Config, s: State)
    requires Inv(cfg, s) && Failing(cfg.starts) == 0 && s.collector == Returned(false)
    ensures s.queue == []
  {
    NoErrors(s.received);
    CountResults(s.received);
    CountResults(s.queue);
  }

  lemma {:induction false} NoStartFailures(rs: seq<Result>, r: Result)
    requires StartFailures(rs) == 0 && r in rs
    ensures r.JobResult?
  {
    if r != rs[0] {
      NoStartFailures(rs[1..], r);
    }
  }
}
