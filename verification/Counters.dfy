/** The submitted counter: it is incremented after the push, outside the lock, so the completed
    counter can be ahead of it for a moment. */
module Counters {
  import opened Jobs
  import opened Packing
  import opened Protocol
  import opened Conservation
  import opened Lifecycle
  import opened WorkerRounds

  /** Completed never runs ahead of submitted by more than the submissions between their push and
      their increment. */
  lemma CompletedWithinPushed(cfg: Config, states: seq<State>, actions: seq<Action>)
    requires IsRun(cfg, states, actions)
    ensures
      var s := Last(states);
      s.sh.completed <= s.sh.nextSeq == s.sh.submitted + s.unbumped
  {
    CompletedTrailsMetrics(cfg, states, actions);
    RunAccepts(cfg, states, actions);
    RunPushed(cfg, states, actions);
    hide IsRun;
    hide AwaitingBump;
  }

  lemma {:induction false} RunPushed(cfg: Config, states: seq<State>, actions: seq<Action>)
    requires IsRun(cfg, states, actions)
    ensures Last(states).sh.nextSeq == Last(states).sh.submitted + Last(states).unbumped
    decreases |actions|
  {
    hide BytesRequired;
    hide DispApply;
    hide WorkerShared;
    if actions != [] {
      RunPrefix(cfg, states, actions);
      var prefix := states[..|states| - 1];
      RunPushed(cfg, prefix, actions[..|actions| - 1]);
      match actions[|actions| - 1]
      case Disp(free) => DispatcherLeavesHistory(cfg, Last(prefix), free);
      case Work(i, act) => WorkerLeavesHistory(Last(prefix).sh, Last(prefix).workers[i], act);
      case _ =>
    }
  }

  lemma WorkerLeavesHistory(sh: Shared, pc: WPc, act: WAct)
    ensures WorkerShared(sh, pc, act).nextSeq == sh.nextSeq && WorkerShared(sh, pc, act).submitted == sh.submitted
  {
  }

  // ----- runs in which a job is counted as completed first

  /** One job has been completed, and its submission is not counted yet. */
  ghost predicate Overtakes(cfg: Config) {
    exists s :: Reachable(cfg, s) && s.sh.completed > s.sh.submitted
  }

  /** The dispatcher fails the job it has drained. */
  lemma FailedFirst(cfg: Config, j: Job, after: After)
    requires TriageNext(cfg, [j]) == Failing([j], after)
    requires Reachable(cfg, OneJob(cfg, j, [], [], false, Triage([j]), 0))
    ensures Overtakes(cfg)
  {
    hide Reachable;
    hide BytesRequired;
    hide Oversized;
    hide TriageNext;
    var s0 := OneJob(cfg, j, [], [], false, Triage([j]), 0);
    var s1 := s0.(disp := Failing([j], after));
    DispReach(cfg, s0, s1);
    var s2 := DispApply(cfg, s1, 0);
    DispReach(cfg, s1, s2);
    var s3 := DispApply(cfg, s2, 0);
    DispReach(cfg, s2, s3);
    assert s3.sh.completed == 1 && s3.sh.submitted == 0;
  }

  lemma JobReachesTriage(cfg: Config, j: Job)
    requires ConfigOk(cfg) && j.submitTime == 1 && j.seqNo == 0
    ensures Reachable(cfg, OneJob(cfg, j, [], [], false, Triage([j]), 0))
  {
    SortOfOne(j, PopsBefore());
    hide Reachable;
    JobSubmitted(cfg, j);
    JobDrained(cfg, j);
  }

  lemma WithoutGpu(cfg: Config)
    requires ConfigOk(cfg) && cfg.gpuAbsent
    ensures Overtakes(cfg)
  {
    var j := EmptyJob().(submitTime := 1);
    hide Overtakes;
    JobReachesTriage(cfg, j);
    FailedFirst(cfg, j, AfterNoGpu);
  }

  /** A job of 2^63 bytes is too large for every device. */
  lemma TooLarge(cfg: Config)
    requires ConfigOk(cfg) && !cfg.gpuAbsent && MaxJobBytes(cfg) > 0
    ensures Overtakes(cfg)
  {
    var j := HalfRangeJob(0).(submitTime := 1);
    HalfRangeBytes(0);
    hide BytesRequired;
    ShapeFixesBytes(j, HalfRangeJob(0));
    hide HalfRangeJob;
    hide Overtakes;
    OversizedAlone(j, MaxJobBytes(cfg));
    JobReachesTriage(cfg, j);
    hide Oversized;
    hide Fitting;
    hide MaxJobBytes;
    hide Reachable;
    FailedFirst(cfg, j, AfterOversized(Fitting([j], MaxJobBytes(cfg))));
  }

  lemma OversizedAlone(j: Job, maxJob: size_t)
    requires BytesRequired(j) > maxJob
    ensures Oversized([j], maxJob) == [j]
  {
    hide BytesRequired;
    assert [j][..0] == [];
    assert Oversized([], maxJob) + [j] == [j];
  }

  lemma {:induction false} WorkReachable(cfg: Config, s: State, w: nat, acts: seq<WAct>)
    requires Reachable(cfg, s) && w < |s.workers| && WorkPath(cfg, s, w, acts)
    ensures Reachable(cfg, WorkIterate(cfg, s, w, acts))
    decreases |acts|
  {
    hide Reachable;
    hide WorkerShared;
    hide WorkerNext;
    hide WorkEnabled;
    if acts != [] {
      var front, act := acts[..|acts| - 1], acts[|acts| - 1];
      PathFront(cfg, s, w, acts);
      hide WorkPath;
      WorkReachable(cfg, s, w, front);
      ReachStep(cfg, WorkIterate(cfg, s, w, front), Work(w, act), WorkIterate(cfg, s, w, acts));
    }
  }

  lemma WithWorker(cfg: Config)
    requires ConfigOk(cfg) && !cfg.gpuAbsent && cfg.numWorkers > 0
    ensures Overtakes(cfg)
  {
    var j := EmptyJob().(submitTime := 1);
    EmptyJobTotals(j, MaxJobBytes(cfg));
    hide BytesRequired;
    hide Reachable;
    hide DrainOrder;
    hide Oversized;
    hide BatchBytes;
    hide RowsOf;
    hide WorkPath;
    hide WorkIterate;
    JobReachesTriage(cfg, j);
    DispatcherPacks(cfg, j, false, 0);
    DispatcherPushes(cfg, j, false, 0);
    var s := OneJob(cfg, j, [], [[j]], false, WaitSpace, 0);
    var acts := WorkerRoundExists(cfg, s, 0, true);
    WorkReachable(cfg, s, 0, acts);
    assert WorkIterate(cfg, s, 0, acts).sh.completed == 1;
  }

  // ----- where nothing is ever recorded

  /** With a GPU, no worker and a device of unknown size, or none beyond the margin, there is nobody
      to record a job. */
  predicate NobodyRecords(cfg: Config) {
    !cfg.gpuAbsent && cfg.numWorkers == 0 && MaxJobBytes(cfg) == 0
  }

  lemma {:induction false} NothingRecorded(cfg: Config, states: seq<State>, actions: seq<Action>)
    requires IsRun(cfg, states, actions) && NobodyRecords(cfg)
    ensures
      var s := Last(states);
      s.sh.completed == 0 && |s.workers| == 0 && !s.disp.Failing? && !s.disp.FailBump?
    decreases |actions|
  {
    hide Step;
    if actions != [] {
      RunPrefix(cfg, states, actions);
      NothingRecorded(cfg, states[..|states| - 1], actions[..|actions| - 1]);
      hide IsRun;
      StillNothing(cfg, Last(states[..|states| - 1]), actions[|actions| - 1], Last(states));
    }
  }

  lemma StillNothing(cfg: Config, s: State, a: Action, s': State)
    requires Step(cfg, s, a, s') && NobodyRecords(cfg)
    requires s.sh.completed == 0 && |s.workers| == 0 && !s.disp.Failing? && !s.disp.FailBump?
    ensures s'.sh.completed == 0 && |s'.workers| == 0 && !s'.disp.Failing? && !s'.disp.FailBump?
  {
    hide BytesRequired;
    hide Pack;
    hide DrainOrder;
    hide Oversized;
    hide Fitting;
    hide RowsOf;
    hide Buffers;
    hide WorkerShared;
    hide WorkerNext;
  }

  /** The completed counter never passes the submitted counter, in any run, exactly where nothing can
      ever be recorded. */
  lemma CompletedWithinSubmittedIff(cfg: Config)
    requires ConfigOk(cfg)
    ensures (forall s :: Reachable(cfg, s) ==> s.sh.completed <= s.sh.submitted) <==> NobodyRecords(cfg)
  {
    if NobodyRecords(cfg) {
      forall s | Reachable(cfg, s) ensures s.sh.completed <= s.sh.submitted {
        var states, actions :| IsRun(cfg, states, actions) && Last(states) == s;
        NothingRecorded(cfg, states, actions);
        hide IsRun;
      }
    } else {
      if cfg.gpuAbsent {
        WithoutGpu(cfg);
      } else if cfg.numWorkers > 0 {
        WithWorker(cfg);
      } else {
        TooLarge(cfg);
      }
      hide Reachable;
    }
  }
}
