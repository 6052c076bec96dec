/** A stopped scheduler that is started again goes on where it was. */
module Restart {
  import opened Totals
  import opened Jobs
  import opened Packing
  import opened Protocol
  import opened Conservation
  import opened Ledger
  import opened Lifecycle
  import opened Metrics
  import opened WorkerRounds
  import opened Counters

  /** What `start` makes of a stopped state. */
  function Restarted(s: State): State {
    s.(sh := s.sh.(started := true, shutdown := false), disp := WaitSpace, workers := seq(|s.workers|, _ => WWait))
  }

  lemma RestartIsReachable(cfg: Config, s: State)
    requires Reachable(cfg, s) && !s.sh.started
    ensures Reachable(cfg, Restarted(s))
  {
    hide Reachable;
    ReachStep(cfg, s, Start, Restarted(s));
  }

  lemma StoppedState(cfg: Config, s: State)
    requires Reachable(cfg, s) && !s.sh.started
    ensures |s.workers| == cfg.numWorkers && (cfg.numWorkers >= 1 ==> |s.sh.batchQueue| <= 1)
    ensures s.sh.batchQueue == [] ==> s.sh.reserved == 0
    ensures |s.sh.batchQueue| == 1 ==> s.sh.reserved == BatchBytes(s.sh.batchQueue[0])
  {
    hide BytesRequired;
    hide Total;
    hide LedgerInv;
    hide InFlight;
    hide HasSeq;
    hide RowHasSeq;
    hide Step;
    hide Init;
    var states, actions :| IsRun(cfg, states, actions) && Last(states) == s;
    ShutdownOutcome(cfg, states, actions, 0);
    RunKeepsThreads(cfg, states, actions);
    LedgerIsExact(cfg, states, actions);
    hide IsRun;
    if |s.sh.batchQueue| == 1 {
      OneBatchTotal(s.sh.batchQueue);
    } else if s.sh.batchQueue == [] {
      EmptyTotal(BatchLoad(JobBytes()));
    }
  }

  lemma EmptyTotal<T>(w: T -> nat)
    ensures Total([], w) == 0
  {
  }

  lemma OneBatchTotal(bq: seq<seq<Job>>)
    requires |bq| == 1
    ensures Total(bq, BatchLoad(JobBytes())) == Total(bq[0], JobBytes())
  {
    hide BytesRequired;
    PopTotal(bq, JobBytes());
    assert bq[1..] == [];
  }

  /** Jobs left in the queue when the scheduler stopped are the candidates of the first round after the next
      start. */
  lemma QueueResumes(cfg: Config, s: State)
    requires Reachable(cfg, s) && !s.sh.started && s.sh.queue != [] && cfg.numWorkers >= 1
    ensures exists s' :: Reachable(cfg, s') && s'.sh.started && s'.disp.Triage?
                         && multiset(s'.disp.cands) == multiset(s.sh.queue) && s'.sh.queue == []
  {
    StoppedState(cfg, s);
    RestartIsReachable(cfg, s);
    DrainIsPriorityThenFifo(s.sh.queue);
    hide Reachable;
    hide DrainOrder;
    hide Pack;
    hide BytesRequired;
    var s0 := Restarted(s);
    var s1 := s0.(disp := WaitQueue);
    DispReach(cfg, s0, s1);
    var s2 := s1.(sh := s1.sh.(queue := []), disp := Triage(DrainOrder(s.sh.queue)));
    DispReach(cfg, s1, s2);
  }

  /** A batch left behind when the scheduler stopped can be run after the next start; its jobs are then
      recorded as done and nothing is reserved any more. */
  lemma LeftBehindBatchResumes(cfg: Config, s: State)
    requires Reachable(cfg, s) && !s.sh.started && s.sh.batchQueue != [] && cfg.numWorkers >= 1 && !cfg.gpuAbsent
    ensures exists s' ::
              && Reachable(cfg, s') && s'.sh.started && s'.sh.batchQueue == [] && s'.sh.reserved == 0
              && Reported(s.sh.metrics, s'.sh.metrics, s.sh.batchQueue[0], true)
  {
    StoppedState(cfg, s);
    RestartIsReachable(cfg, s);
    AppendReports(s.sh.metrics, s.sh.batchQueue[0], true);
    hide Reachable;
    hide BatchBytes;
    hide RowsOf;
    hide WorkPath;
    hide WorkIterate;
    hide Reported;
    var s0 := Restarted(s);
    var acts := WorkerRoundExists(cfg, s0, 0, true);
    WorkReachable(cfg, s0, 0, acts);
    assert Reachable(cfg, s0.(sh := WorkerOutcome(s0.sh, true)));
  }
}
