/** The dispatcher packs ahead as far as it may. */
module Lookahead {
  import opened Jobs
  import opened Protocol
  import opened StarvationRuns
  import opened StarvationBound
  import opened Lifecycle

  /** Rounds without footprint, one after the other and nobody taking the batches. */
  lemma {:induction false} RoundsAhead(p: Plan, n: nat) returns (s: State, batches: seq<seq<Job>>)
    requires Suits(p) && BytesOf(p, p.each) == 0 && n * p.each <= p.others && n <= MaxQueueDepth(p.cfg)
    ensures |batches| == n && Ready(p, s, n * p.each, batches, 0)
    ensures StarvationRuns.Reaches(p.cfg, s, Counted(p), n)
  {
    CountedPacks(p);
    hide *;
    if n == 0 {
      s := LineStarts(p, Counted(p));
      batches := [];
    } else {
      var i := (n - 1) * p.each;
      assert n * p.each == i + p.each;
      var s0, b0 := RoundsAhead(p, n - 1);
      s, batches := FreeRound(p, s0, i, b0, n - 1);
    }
  }

  /** With a GPU and a cap the bound of `LookaheadIsBounded` is reached on every configuration. */
  lemma LookaheadIsReached(cfg: Config)
    requires ConfigOk(cfg) && cfg.maxBatch > 0 && !cfg.gpuAbsent
    ensures exists s ::
              Reachable(cfg, s) && |s.sh.batchQueue| == if cfg.numWorkers <= 1 then 2 else 2 * cfg.numWorkers
  {
    var n := MaxQueueDepth(cfg);
    assert n == if cfg.numWorkers <= 1 then 2 else 2 * cfg.numWorkers;
    var p := FreePlan(cfg, 0, n * cfg.maxBatch);
    hide Suits;
    hide MaxQueueDepth;
    hide BytesOf;
    var s, batches := RoundsAhead(p, n);
    hide StarvationRuns.Reaches;
    hide Line;
    PlausibleIsReachable(cfg, s, Counted(p), n);
    hide Reachable;
  }

  lemma PlausibleIsReachable(cfg: Config, s: State, counted: (State, Action) -> bool, rounds: nat)
    requires StarvationRuns.Reaches(cfg, s, counted, rounds)
    ensures Reachable(cfg, s)
  {
    hide IsRun;
  }
}
