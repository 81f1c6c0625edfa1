/** When can the document runner return an error and leave its feeder goroutine blocked for ever? */
module WorkerPoolLeaks {
  import opened WorkerPool
  import opened WorkerPoolProgress

  /** The call has returned, nothing can move any more, and the feeder has not closed the job channel. */
  ghost predicate Leaked(cfg: Config, s: State) {
    s.collector.Returned? && !s.closed && forall e :: !Enabled(cfg, s, e)
  }

  function Working(cfg: Config): int {
    |cfg.starts| - Failing(cfg.starts)
  }

  /** More files than workers whose translator starts, some worker, and room on the result channel for the failures
      that the collector no longer reads. */
  predicate CanLeak(cfg: Config) {
    && cfg.starts != [] && cfg.jobs > Working(cfg)
    && Failing(cfg.starts) <= cfg.jobs + (if Working(cfg) == 0 then 1 else 0)
  }

  // ---------------------------------------------------------------- working workers that took a job

  function Engages(start: bool, w: Worker): nat {
    if start && !w.Starting? && !w.Receiving? then 1 else 0
  }

  /** The workers with a translator that are busy with a job or gone. */
  function Engaged(starts: seq<bool>, ws: seq<Worker>): nat
    requires |starts| == |ws|
  {
    if ws == [] then 0 else Engages(starts[0], ws[0]) + Engaged(starts[1..], ws[1..])
  }

  lemma {:induction false} EngagedUpdate(starts: seq<bool>, ws: seq<Worker>, i: nat, w: Worker)
    requires |starts| == |ws| && i < |ws|
    ensures Engaged(starts, ws[i := w]) + Engages(starts[i], ws[i]) == Engaged(starts, ws) + Engages(starts[i], w)
  {
    if i > 0 {
      assert ws[i := w][1..] == ws[1..][i - 1 := w];
      EngagedUpdate(starts[1..], ws[1..], i - 1, w);
    } else {
      assert ws[i := w][1..] == ws[1..];
    }
  }

  lemma {:induction false} EngagedAtMost(starts: seq<bool>, ws: seq<Worker>)
    requires |starts| == |ws|
    ensures Engaged(starts, ws) <= |starts| - Failing(starts)
    ensures AllExited(ws) ==> Engaged(starts, ws) == |starts| - Failing(starts)
  {
    if ws != [] {
      assert AllExited(ws) ==> AllExited(ws[1..]) && ws[0].Exited?;
      EngagedAtMost(starts[1..], ws[1..]);
    }
  }

  lemma {:induction false} NoneEngaged(starts: seq<bool>, ws: seq<Worker>)
    requires |starts| == |ws| && forall i :: 0 <= i < |ws| ==> ws[i].Starting?
    ensures Engaged(starts, ws) == 0
  {
    if ws != [] {
      NoneEngaged(starts[1..], ws[1..]);
    }
  }

  // ---------------------------------------------------------------- a leak needs more files than workers

  /** While the job channel is open, every working worker that is busy or gone has taken a job of its own. */
  ghost predicate TakenOk(cfg: Config, s: State) {
    |s.workers| == |cfg.starts| && (!s.closed ==> Engaged(cfg.starts, s.workers) <= s.next)
  }

  lemma StepTaken(cfg: Config, s: State, e: Event)
    requires Enabled(cfg, s, e) && PhasesOk(cfg, s) && TakenOk(cfg, s)
    ensures TakenOk(cfg, Next(cfg, s, e))
  {
    hide Engaged, PhasesOk;
    match e {
      case StartUp(w) => EngagedUpdate(cfg.starts, s.workers, w, Next(cfg, s, e).workers[w]);
        StartedAsConfigured(cfg, s, w);
      case Take(w) => EngagedUpdate(cfg.starts, s.workers, w, Checking(s.next));
      case Drain(w) => EngagedUpdate(cfg.starts, s.workers, w, Exited);
      case Check(w) => EngagedUpdate(cfg.starts, s.workers, w, Next(cfg, s, e).workers[w]);
      case Finish(w, o) => EngagedUpdate(cfg.starts, s.workers, w, Sending(JobResult(s.workers[w].job, o)));
      case Send(w) => EngagedUpdate(cfg.starts, s.workers, w, AfterSend(s.workers[w].result));
      case Cancel(w) => EngagedUpdate(cfg.starts, s.workers, w, Exited);
      case _ =>
    }
  }

  lemma StartedAsConfigured(cfg: Config, s: State, w: nat)
    requires PhasesOk(cfg, s) && w < |s.workers| && s.workers[w].Starting?
    ensures s.workers[w].ok == cfg.starts[w]
  {
    assert PhaseOk(cfg.starts[w], s.workers[w], s.closed, s.cancelled);
  }

  lemma {:induction false} RunTaken(cfg: Config, s: State, es: seq<Event>, t: State)
    requires Inv(cfg, s) && TakenOk(cfg, s) && Run(cfg, s, es, t)
    ensures TakenOk(cfg, t)
    decreases |es|
  {
    if es != [] {
      StepInv(cfg, s, es[0]);
      StepTaken(cfg, s, es[0]);
      RunTaken(cfg, Next(cfg, s, es[0]), es[1..], t);
    }
  }

  lemma LeakNeedsFiles(cfg: Config, s: State)
    requires Reachable(cfg, s) && Leaked(cfg, s)
    ensures cfg.jobs > Working(cfg)
  {
    hide Inv, Engaged, Run;
    ReachableTaken(cfg, s);
    ReachableInv(cfg, s);
    BlockedFeeder(cfg, s);
  }

  lemma ReachableTaken(cfg: Config, s: State)
    requires Reachable(cfg, s)
    ensures TakenOk(cfg, s)
  {
    hide Inv, Engaged, Enabled, Next;
    var es :| Run(cfg, Init(cfg), es, s);
    InitInv(cfg);
    NoneEngaged(cfg.starts, Init(cfg).workers);
    RunTaken(cfg, Init(cfg), es, s);
  }

  lemma BlockedFeeder(cfg: Config, s: State)
    requires Inv(cfg, s) && TakenOk(cfg, s) && Leaked(cfg, s)
    ensures cfg.jobs > Working(cfg)
  {
    EngagedAtMost(cfg.starts, s.workers);
    assert !Enabled(cfg, s, CloseJobs);
  }

  /** Before the last result the collector reads no start-up failure. */
  lemma FailuresRead(rs: seq<Result>)
    requires rs != [] && forall i :: 0 <= i < |rs| - 1 ==> !rs[i].IsError()
    ensures StartFailures(rs) == if rs[|rs| - 1].StartFailure? then 1 else 0
  {
    var init, last := rs[..|rs| - 1], rs[|rs| - 1];
    NoErrors(init);
    FailuresAppend(init, last);
    assert rs == init + [last];
  }

  lemma {:induction false} OtherResults(rs: seq<Result>, r: Result)
    requires r in rs && r.JobResult?
    ensures StartFailures(rs) < |rs|
  {
    CountResults(rs);
    if rs[0] != r {
      OtherResults(rs[1..], r);
    }
  }

  lemma LeakNeedsRoom(cfg: Config, s: State)
    requires Reachable(cfg, s) && Leaked(cfg, s)
    ensures cfg.starts != [] && Failing(cfg.starts) <= cfg.jobs + (if Working(cfg) == 0 then 1 else 0)
  {
    hide Weight, Enabled;
    ReachableInv(cfg, s);
    LeakNeedsFiles(cfg, s);
    NothingHeld(s.workers, Each());
    CountResults(s.queue);
    AllFail(cfg.starts);
    var last := LastRead(cfg, s);
    FailuresRead(s.received);
    if Working(cfg) > 0 && last.StartFailure? {
      var w := SomeStarts(cfg.starts);
      assert PhaseOk(cfg.starts[w], s.workers[w], s.closed, s.cancelled);
      var r :| (r in s.queue || r in s.received) && r.JobResult? && r.outcome.Failed?;
      assert r !in s.received by {
        assert forall i :: 0 <= i < |s.received| - 1 ==> !s.received[i].IsError();
      }
      OtherResults(s.queue, r);
    }
  }

  /** A leaking call has returned an error. */
  lemma LastRead(cfg: Config, s: State) returns (last: Result)
    requires Inv(cfg, s) && Leaked(cfg, s) && cfg.jobs > Working(cfg)
    ensures s.received != [] && last == s.received[|s.received| - 1] && last.IsError() && cfg.starts != []
    ensures forall i :: 0 <= i < |s.received| - 1 ==> !s.received[i].IsError()
  {
    assert !Enabled(cfg, s, CloseJobs);
    if s.collector == Returned(false) {
      NoErrors(s.received);
      CountResults(s.received);
      SpanEach(s.next, cfg.jobs);
    }
    if cfg.starts == [] {
      NeverReturns(cfg, s);
    }
    last := s.received[|s.received| - 1];
  }

  // ---------------------------------------------------------------- and these files leak

  /** A worker on its way out: it takes at most one more job, only to drop it. */
  predicate OnItsWayOut(start: bool, w: Worker, cancelled: bool) {
    match w
    case Starting(ok) => ok == start && (start ==> cancelled)
    case Receiving => start && cancelled
    case Checking(_) => start && cancelled
    case Sending(r) => r.StartFailure? && !start
    case Exited => true
    case _ => false
  }

  /** The call has met an error, and too few workers are left to take all files. */
  ghost predicate Doomed(cfg: Config, s: State) {
    && (s.collector == Joining(true) || s.collector == Returned(true)) && !s.closed
    && |s.workers| == |cfg.starts|
    && (forall w :: 0 <= w < |s.workers| ==> OnItsWayOut(cfg.starts[w], s.workers[w], s.cancelled))
    && s.next == Engaged(cfg.starts, s.workers)
    && StartFailures(s.queue) == |s.queue| && |s.queue| + DueIn(s.workers) <= cfg.jobs
    && (s.collector.Returned? ==> AllExited(s.workers))
  }

  lemma StepDoomed(cfg: Config, s: State, e: Event)
    requires cfg.jobs > Working(cfg) && Doomed(cfg, s) && Enabled(cfg, s, e)
    ensures Doomed(cfg, Next(cfg, s, e))
  {
    hide Engaged, DueIn, StartFailures;
    EngagedAtMost(cfg.starts, s.workers);
    match e {
      case StartUp(w) => MoveDoomed(cfg, s, w, Next(cfg, s, e).workers[w]);
      case Take(w) => MoveDoomed(cfg, s, w, Checking(s.next));
      case Check(w) => MoveDoomed(cfg, s, w, Exited);
      case Send(w) =>
        MoveDoomed(cfg, s, w, Exited);
        FailuresAppend(s.queue, s.workers[w].result);
      case _ =>
    }
  }

  lemma MoveDoomed(cfg: Config, s: State, w: nat, x: Worker)
    requires |s.workers| == |cfg.starts| && w < |s.workers|
    ensures Engaged(cfg.starts, s.workers[w := x]) + Engages(cfg.starts[w], s.workers[w])
         == Engaged(cfg.starts, s.workers) + Engages(cfg.starts[w], x)
    ensures DueIn(s.workers[w := x]) + Due(s.workers[w]) == DueIn(s.workers) + Due(x)
  {
    EngagedUpdate(cfg.starts, s.workers, w, x);
    DueUpdate(s.workers, w, x);
  }

  lemma {:induction false} RunDoomed(cfg: Config, s: State, es: seq<Event>, t: State)
    requires cfg.jobs > Working(cfg) && Doomed(cfg, s) && Run(cfg, s, es, t)
    ensures Doomed(cfg, t)
    decreases |es|
  {
    if es != [] {
      StepDoomed(cfg, s, es[0]);
      RunDoomed(cfg, Next(cfg, s, es[0]), es[1..], t);
    }
  }

  lemma DoomedMoves(cfg: Config, s: State, w: nat)
    requires cfg.jobs > Working(cfg) && Doomed(cfg, s) && w < |s.workers| && !s.workers[w].Exited?
    ensures exists e :: Enabled(cfg, s, e)
  {
    EngagedAtMost(cfg.starts, s.workers);
    assert OnItsWayOut(cfg.starts[w], s.workers[w], s.cancelled);
    match s.workers[w] {
      case Starting(_) => assert Enabled(cfg, s, StartUp(w));
      case Receiving => assert Enabled(cfg, s, Take(w));
      case Checking(_) => assert Enabled(cfg, s, Check(w));
      case Sending(r) =>
        WorkerShare(s.workers, w, Each());
        assert Enabled(cfg, s, Send(w));
      case _ =>
    }
  }

  lemma DoomedEnds(cfg: Config, s: State)
    requires cfg.jobs > Working(cfg) && Doomed(cfg, s) && forall e :: !Enabled(cfg, s, e)
    ensures Leaked(cfg, s)
  {
    forall w | 0 <= w < |s.workers| ensures s.workers[w].Exited? {
      if !s.workers[w].Exited? {
        DoomedMoves(cfg, s, w);
      }
    }
    assert !Enabled(cfg, s, Join);
  }

  /** The first worker alone: it starts, fails on its first file and is about to report that. */
  lemma OneWorks(cfg: Config, c: nat) returns (es: seq<Event>, t: State)
    requires cfg.jobs > 0 && c < |cfg.starts| && cfg.starts[c]
    ensures Run(cfg, Init(cfg), es, t)
    ensures t == Init(cfg).(next := 1, workers := Init(cfg).workers[c := Sending(JobResult(0, Failed))])
  {
    var s0 := Init(cfg);
    var s1 := Next(cfg, s0, StartUp(c));
    RunOne(cfg, s0, [], s0, StartUp(c));
    es := [] + [StartUp(c)];
    var s2 := Next(cfg, s1, Take(c));
    RunOne(cfg, s0, es, s1, Take(c));
    es := es + [Take(c)];
    var s3 := Next(cfg, s2, Check(c));
    RunOne(cfg, s0, es, s2, Check(c));
    es := es + [Check(c)];
    t := Next(cfg, s3, Finish(c, Failed));
    RunOne(cfg, s0, es, s3, Finish(c, Failed));
    es := es + [Finish(c, Failed)];
  }

  /** It reports, is read, and cancels. */
  lemma OneFails(cfg: Config, c: nat) returns (es: seq<Event>, t: State)
    requires CanLeak(cfg) && c < |cfg.starts| && cfg.starts[c]
    ensures Run(cfg, Init(cfg), es, t) && Doomed(cfg, t)
  {
    hide Engaged, DueIn, Failing, Doomed, Run;
    var s0 := Init(cfg);
    var s1;
    es, s1 := OneWorks(cfg, c);
    var s2 := Next(cfg, s1, Send(c));
    RunOne(cfg, s0, es, s1, Send(c));
    es := es + [Send(c)];
    var s3 := Next(cfg, s2, Collect);
    RunOne(cfg, s0, es, s2, Collect);
    es := es + [Collect];
    t := Next(cfg, s3, Cancel(c));
    RunOne(cfg, s0, es, s3, Cancel(c));
    es := es + [Cancel(c)];
    OneGone(cfg, c, t);
  }

  lemma OneGone(cfg: Config, c: nat, t: State)
    requires CanLeak(cfg) && c < |cfg.starts| && t.collector == Joining(true) && !t.closed && t.queue == []
    requires t.workers == Init(cfg).workers[c := Exited] && t.next == Engages(cfg.starts[c], Exited)
    requires if cfg.starts[c] then t.cancelled else Working(cfg) == 0
    ensures Doomed(cfg, t)
  {
    var ws := Init(cfg).workers;
    EngagedUpdate(cfg.starts, ws, c, Exited);
    NoneEngaged(cfg.starts, ws);
    DueUpdate(ws, c, Exited);
    InitiallyHeld(cfg.starts, ws, Each());
    AllFail(cfg.starts);
  }

  /** No translator starts: the first failure is read. */
  lemma FirstStartFails(cfg: Config) returns (es: seq<Event>, t: State)
    requires CanLeak(cfg) && Working(cfg) == 0
    ensures Run(cfg, Init(cfg), es, t) && Doomed(cfg, t)
  {
    AllFail(cfg.starts);
    var s0 := Init(cfg);
    var s1 := Next(cfg, s0, StartUp(0));
    RunOne(cfg, s0, [], s0, StartUp(0));
    es := [] + [StartUp(0)];
    var s2 := Next(cfg, s1, Send(0));
    RunOne(cfg, s0, es, s1, Send(0));
    es := es + [Send(0)];
    t := Next(cfg, s2, Collect);
    RunOne(cfg, s0, es, s2, Collect);
    es := es + [Collect];
    OneGone(cfg, 0, t);
  }

  lemma LeakyPoolLeaks(cfg: Config) returns (s: State)
    requires CanLeak(cfg)
    ensures Reachable(cfg, s) && Leaked(cfg, s)
  {
    AllFail(cfg.starts);
    var es1, s1;
    if Working(cfg) == 0 {
      es1, s1 := FirstStartFails(cfg);
    } else {
      var c := SomeStarts(cfg.starts);
      es1, s1 := OneFails(cfg, c);
    }
    EngagedAtMost(cfg.starts, s1.workers);
    var es2, t := MaximalRun(cfg, s1);
    RunDoomed(cfg, s1, es2, t);
    DoomedEnds(cfg, t);
    RunAppend(cfg, Init(cfg), es1, s1, es2, t);
    s := t;
  }

  /** After an error the feeder can stay blocked for ever exactly when `CanLeak` holds. With translators that all
      start: exactly when there is a worker and there are more files than workers. */
  lemma FeederLeaksExactly(cfg: Config)
    ensures (exists s :: Reachable(cfg, s) && Leaked(cfg, s)) <==> CanLeak(cfg)
    ensures Failing(cfg.starts) == 0 ==> (CanLeak(cfg) <==> cfg.jobs > |cfg.starts| >= 1)
  {
    if CanLeak(cfg) {
      var _ := LeakyPoolLeaks(cfg);
    }
    AllFail(cfg.starts);
    forall s | Reachable(cfg, s) && Leaked(cfg, s) ensures CanLeak(cfg) {
      LeakNeedsFiles(cfg, s);
      LeakNeedsRoom(cfg, s);
    }
  }

  /** One worker and two files: the smallest pool that leaks although its translator starts. */
  lemma FeederMayLeak() returns (cfg: Config, s: State)
    ensures cfg == Config(2, [true]) && Failing(cfg.starts) == 0 && Reachable(cfg, s)
    ensures s.collector == Returned(true) && !s.closed && forall e :: !Enabled(cfg, s, e)
  {
    cfg := Config(2, [true]);
    assert [true][1..] == [];
    s := LeakyPoolLeaks(cfg);
    ReachableInv(cfg, s);
    LeakNeedsFiles(cfg, s);
    var _ := LastRead(cfg, s);
  }
}
