/** Counters, bounded lookahead, shutdown and restart. */
module Lifecycle {
  import opened Totals
  import opened Sorting
  import opened Jobs
  import opened Packing
  import opened Protocol
  import opened Conservation
  import opened Ledger

  // ----- counters

  function BumpLoad(): WPc -> nat {
    (pc: WPc) => if pc.WBump? then |pc.batch| else 0
  }

  /** Jobs whose metrics rows exist but which the completed counter does not include yet. */
  function AwaitingBump(s: State): nat {
    (if s.disp.FailBump? then s.disp.count else 0) + Total(s.workers, BumpLoad())
  }

  predicate CountersInv(s: State) {
    s.sh.completed + AwaitingBump(s) == |s.sh.metrics|
  }

  lemma {:induction false} RowsLength(batch: seq<Job>, ok: bool)
    ensures |RowsOf(batch, ok)| == |batch|
  {
    if batch != [] {
      RowsLength(batch[..|batch| - 1], ok);
    }
  }

  lemma DispatcherCounters(cfg: Config, s: State, free: size_t)
    requires DispEnabled(cfg, s, free) && CountersInv(s)
    ensures CountersInv(DispApply(cfg, s, free))
  {
    hide BytesRequired;
    hide Pack;
    hide RowsOf;
    if s.disp.Failing? {
      RowsLength(s.disp.failed, false);
    }
  }

  lemma WorkerCounters(cfg: Config, s: State, i: nat, act: WAct)
    requires WorkEnabled(s, i, act) && CountersInv(s)
    ensures CountersInv(Apply(cfg, s, Work(i, act)))
  {
    hide BytesRequired;
    hide Total;
    hide Buffers;
    hide RowsOf;
    var pc := s.workers[i];
    TotalUpdate(s.workers, i, WorkerNext(cfg, s, pc, act), BumpLoad());
    if pc.WRun? || pc.WGiveUp? {
      RowsLength(pc.batch, act.Go?);
      RowsLength(pc.batch, false);
    }
  }

  lemma {:induction false} IdleAwaitNothing(ws: seq<WPc>)
    requires forall i :: 0 <= i < |ws| ==> ws[i].WExited? || ws[i].WWait?
    ensures Total(ws, BumpLoad()) == 0
  {
    TotalZero(ws, BumpLoad());
  }

  lemma CountersStep(cfg: Config, s: State, a: Action, s': State)
    requires Step(cfg, s, a, s') && CountersInv(s) && ThreadsOnlyWhileStarted(s)
    ensures CountersInv(s')
  {
    hide BytesRequired;
    hide DispApply;
    match a
    case Disp(free) => DispatcherCounters(cfg, s, free);
    case Work(i, act) => WorkerCounters(cfg, s, i, act);
    case Start =>
      IdleAwaitNothing(s.workers);
      IdleAwaitNothing(s'.workers);
    case _ =>
  }

  /** The completed counter never runs ahead of the metrics; the gap is exactly the batches that
      are between recording their rows and bumping the counter. */
  lemma {:induction false} CompletedTrailsMetrics(cfg: Config, states: seq<State>, actions: seq<Action>)
    requires IsRun(cfg, states, actions)
    ensures
      var s := Last(states);
      s.sh.completed + AwaitingBump(s) == |s.sh.metrics| <= s.sh.nextSeq
    decreases |actions|
  {
    hide BytesRequired;
    hide Step;
    JobCountsBalance(cfg, states, actions);
    hide Load;
    if actions == [] {
      IdleAwaitNothing(states[0].workers);
    } else {
      RunPrefix(cfg, states, actions);
      var prefix := states[..|states| - 1];
      CompletedTrailsMetrics(cfg, prefix, actions[..|actions| - 1]);
      RunKeepsThreads(cfg, prefix, actions[..|actions| - 1]);
      hide AwaitingBump;
      CountersStep(cfg, Last(prefix), actions[|actions| - 1], Last(states));
    }
  }

  // ----- bounded lookahead

  /** Only the dispatcher pushes, so the room it saw while waiting is still there when it pushes. */
  predicate LookaheadInv(cfg: Config, s: State) {
    && |s.sh.batchQueue| <= MaxQueueDepth(cfg)
    && (s.disp.WaitSpace? || s.disp.DExited? || |s.sh.batchQueue| < MaxQueueDepth(cfg))
  }

  lemma LookaheadStep(cfg: Config, s: State, a: Action, s': State)
    requires Step(cfg, s, a, s') && LookaheadInv(cfg, s)
    ensures LookaheadInv(cfg, s')
  {
    hide BytesRequired;
    hide Pack;
    hide DrainOrder;
    hide Buffers;
  }

  /** The batch queue never holds more than two batches, or two for each worker, although the depth test
      and the push are separate critical sections with the whole packing round between them. */
  lemma {:induction false} LookaheadIsBounded(cfg: Config, states: seq<State>, actions: seq<Action>)
    requires IsRun(cfg, states, actions)
    ensures |Last(states).sh.batchQueue| <= (if cfg.numWorkers <= 1 then 2 else 2 * cfg.numWorkers)
    ensures LookaheadInv(cfg, Last(states))
    decreases |actions|
  {
    hide BytesRequired;
    hide Step;
    if actions != [] {
      RunPrefix(cfg, states, actions);
      LookaheadIsBounded(cfg, states[..|states| - 1], actions[..|actions| - 1]);
      LookaheadStep(cfg, Last(states[..|states| - 1]), actions[|actions| - 1], Last(states));
    }
  }

  // ----- shutdown

  /** The dispatcher is past its last shutdown test and may still push one batch. */
  predicate CommittedToRound(d: DPc) {
    !d.WaitSpace? && !d.WaitQueue? && !d.DExited?
  }

  function StillToCome(s: State): nat {
    |s.sh.batchQueue| + (if CommittedToRound(s.disp) then 1 else 0)
  }

  ghost predicate SomeWorkerExited(s: State) {
    exists i :: 0 <= i < |s.workers| && s.workers[i].WExited?
  }

  ghost predicate ShutdownInv(s: State) {
    && (s.sh.started && SomeWorkerExited(s) ==> s.sh.shutdown && StillToCome(s) <= 1)
    && (!s.sh.started && s.workers != [] ==> |s.sh.batchQueue| <= 1)
  }

  lemma DispatcherShutdown(cfg: Config, s: State, free: size_t)
    requires DispEnabled(cfg, s, free) && ShutdownInv(s) && ThreadsOnlyWhileStarted(s)
    ensures ShutdownInv(DispApply(cfg, s, free))
  {
    hide BytesRequired;
    hide Pack;
    hide DrainOrder;
    var s' := DispApply(cfg, s, free);
    assert s'.workers == s.workers;
    assert SomeWorkerExited(s') ==> SomeWorkerExited(s);
  }

  lemma WorkerShutdown(cfg: Config, s: State, i: nat, act: WAct)
    requires WorkEnabled(s, i, act) && ShutdownInv(s) && ThreadsOnlyWhileStarted(s)
    ensures ShutdownInv(Apply(cfg, s, Work(i, act)))
  {
    hide BytesRequired;
    hide Buffers;
    var s' := Apply(cfg, s, Work(i, act));
    if SomeWorkerExited(s') && !s'.workers[i].WExited? {
      var k :| 0 <= k < |s'.workers| && s'.workers[k].WExited?;
      assert s.workers[k].WExited?;
    }
  }

  lemma ShutdownStep(cfg: Config, s: State, a: Action, s': State)
    requires Step(cfg, s, a, s') && ShutdownInv(s) && ThreadsOnlyWhileStarted(s)
    ensures ShutdownInv(s')
  {
    hide BytesRequired;
    hide DispApply;
    match a
    case Disp(free) => DispatcherShutdown(cfg, s, free);
    case Work(i, act) => WorkerShutdown(cfg, s, i, act);
    case StopJoined => if s.workers != [] { assert s.workers[0].WExited?; }
    case _ =>
  }

  lemma {:induction false} RunShutdown(cfg: Config, states: seq<State>, actions: seq<Action>)
    requires IsRun(cfg, states, actions)
    ensures ShutdownInv(Last(states))
    decreases |actions|
  {
    hide BytesRequired;
    hide Step;
    hide ShutdownInv;
    if actions == [] {
      NothingQueued(cfg, states[0]);
    } else {
      RunPrefix(cfg, states, actions);
      var prefix := states[..|states| - 1];
      RunShutdown(cfg, prefix, actions[..|actions| - 1]);
      RunKeepsThreads(cfg, prefix, actions[..|actions| - 1]);
      ShutdownStep(cfg, Last(prefix), actions[|actions| - 1], Last(states));
    }
  }

  lemma NothingQueued(cfg: Config, s: State)
    requires Init(cfg, s)
    ensures ShutdownInv(s)
  {
  }

  /** Shutdown outcome. Whenever the scheduler is stopped, however it ran before: no thread holds
      a job; every accepted job is in the metrics, in the queue or in a batch left behind; with at
      least one worker at most one batch is left behind; the reserved bytes are those of the
      batches left behind; and the completed counter equals the number of metrics rows. A later
      `start` is one more step of the same run, so every invariant of runs carries across it. */
  lemma ShutdownOutcome(cfg: Config, states: seq<State>, actions: seq<Action>, q: nat)
    requires IsRun(cfg, states, actions) && !Last(states).sh.started
    ensures
      var s := Last(states);
      && Total(s.sh.queue, HasSeq(q)) + Total(s.sh.batchQueue, BatchLoad(HasSeq(q))) + Total(s.sh.metrics, RowHasSeq(q))
         == (if q < s.sh.nextSeq then 1 else 0)
      && |s.sh.batchQueue| <= (if cfg.numWorkers >= 1 then 1 else 2)
      && s.sh.reserved == Total(s.sh.batchQueue, BatchLoad(JobBytes()))
      && s.sh.completed == |s.sh.metrics|
  {
    hide BytesRequired;
    var s := Last(states);
    RunKeepsThreads(cfg, states, actions);
    JobsAreConserved(cfg, states, actions, q);
    LedgerIsExact(cfg, states, actions);
    CompletedTrailsMetrics(cfg, states, actions);
    RunShutdown(cfg, states, actions);
    LookaheadIsBounded(cfg, states, actions);
    IdleWorkersWeighNothing(s.workers, HasSeq(q));
    IdleReserveNothing(s.workers);
    IdleAwaitNothing(s.workers);
    EmptyTotals(HasSeq(q));
  }

  // ----- batches are never empty

  predicate NoEmptyBatch(s: State) {
    && (forall k :: 0 <= k < |s.sh.batchQueue| ==> s.sh.batchQueue[k] != [])
    && (s.disp.Reserving? || s.disp.Pushing? ==> s.disp.selected != [])
  }

  lemma {:induction false} BatchesAreNonEmpty(cfg: Config, states: seq<State>, actions: seq<Action>)
    requires IsRun(cfg, states, actions)
    ensures NoEmptyBatch(Last(states))
    decreases |actions|
  {
    hide BytesRequired;
    hide Step;
    if actions != [] {
      RunPrefix(cfg, states, actions);
      BatchesAreNonEmpty(cfg, states[..|states| - 1], actions[..|actions| - 1]);
      NonEmptyStep(cfg, Last(states[..|states| - 1]), actions[|actions| - 1], Last(states));
    }
  }

  lemma NonEmptyStep(cfg: Config, s: State, a: Action, s': State)
    requires Step(cfg, s, a, s') && NoEmptyBatch(s)
    ensures NoEmptyBatch(s')
  {
    hide BytesRequired;
    hide Pack;
    hide DrainOrder;
    hide Buffers;
    hide RowsOf;
  }

  // ----- no batch is above the cap

  /** The dispatcher's selection, on its way to the workers. */
  function Selection(d: DPc): seq<Job> {
    match d
    case Requeueing(sel, _) => sel
    case Reserving(sel) => sel
    case Pushing(sel) => sel
    case _ => []
  }

  predicate WithinCap(cfg: Config, s: State) {
    cfg.maxBatch > 0 ==>
      && |Selection(s.disp)| <= cfg.maxBatch
      && (forall k :: 0 <= k < |s.sh.batchQueue| ==> |s.sh.batchQueue[k]| <= cfg.maxBatch)
      && (forall i :: 0 <= i < |s.workers| ==> |Reserved(s.workers[i])| <= cfg.maxBatch)
  }

  lemma {:induction false} BatchesAreWithinCap(cfg: Config, states: seq<State>, actions: seq<Action>)
    requires IsRun(cfg, states, actions)
    ensures WithinCap(cfg, Last(states))
    decreases |actions|
  {
    hide BytesRequired;
    hide Step;
    if actions != [] {
      RunPrefix(cfg, states, actions);
      BatchesAreWithinCap(cfg, states[..|states| - 1], actions[..|actions| - 1]);
      hide IsRun;
      CapStep(cfg, Last(states[..|states| - 1]), actions[|actions| - 1], Last(states));
    }
  }

  lemma CapStep(cfg: Config, s: State, a: Action, s': State)
    requires Step(cfg, s, a, s') && WithinCap(cfg, s)
    ensures WithinCap(cfg, s')
  {
    hide BytesRequired;
    hide DispApply;
    match a
    case Disp(free) => DispatcherCap(cfg, s, free);
    case Work(i, act) => WorkerCap(cfg, s, i, act);
    case _ =>
  }

  lemma DispatcherCap(cfg: Config, s: State, free: size_t)
    requires DispEnabled(cfg, s, free) && WithinCap(cfg, s)
    ensures WithinCap(cfg, DispApply(cfg, s, free))
  {
    hide BytesRequired;
    hide DrainOrder;
    hide TriageNext;
    hide RowsOf;
    DispatcherLeavesHistory(cfg, s, free);
    if s.disp.Triage? {
      TriageTargets(cfg, s.disp.cands);
    } else if s.disp.Packing? {
      PackPartitions(s.disp.cands, s.disp.budget, cfg.maxBatch, s.clock);
    }
    hide Pack;
  }

  lemma WorkerCap(cfg: Config, s: State, i: nat, act: WAct)
    requires WorkEnabled(s, i, act) && WithinCap(cfg, s)
    ensures WithinCap(cfg, Apply(cfg, s, Work(i, act)))
  {
    hide BytesRequired;
    hide Buffers;
    hide RowsOf;
    hide BatchBytes;
  }

  // ----- a packed batch can be left behind

  function EmptyJob(): Job {
    Job(7, 0, 0, 0, 1, 0, 0, 0)
  }

  /** An empty job is packed whatever the budget and the cap. */
  lemma PackOfEmptyJob(j: Job, budget: size_t, maxBatch: int32)
    requires j == EmptyJob().(submitTime := 1)
    ensures Pack([j], budget, maxBatch, 1).selected == [j] && Pack([j], budget, maxBatch, 1).remaining == []
  {
    EmptyJobBytes(j);
    hide BytesRequired;
    SortOfOne(j, PacksBefore(1));
    assert [j][..0] == [];
    assert SweepOver([], budget, maxBatch) == Sweep([], [], 0);
    assert SweepOver([j], budget, maxBatch) == Sweep([] + [j], [], 0);
  }

  lemma EmptyJobTotals(j: Job, maxJob: size_t)
    requires j == EmptyJob().(submitTime := 1)
    ensures DrainOrder([j]) == [j] && BatchBytes([j]) == 0 && Oversized([j], maxJob) == []
  {
    EmptyJobBytes(j);
    hide BytesRequired;
    SortOfOne(j, PopsBefore());
    TotalSnoc([], j, JobBytes());
    assert [] + [j] == [j];
    assert [j][..0] == [];
  }

  lemma EmptyJobBytes(j: Job)
    requires j == EmptyJob().(submitTime := 1)
    ensures BytesRequired(j) == 0
  {
    BytesAreExactModuloSize(j);
    hide BytesRequired;
  }

  lemma SortOfOne(j: Job, less: (Job, Job) -> bool)
    ensures SortBy([j], less) == [j]
  {
    assert [j][1..] == [];
    assert SortBy([], less) == [];
  }

  ghost predicate Reachable(cfg: Config, s: State) {
    exists states, actions :: IsRun(cfg, states, actions) && Last(states) == s
  }

  lemma ReachStep(cfg: Config, s: State, a: Action, s': State)
    requires Reachable(cfg, s) && Step(cfg, s, a, s')
    ensures Reachable(cfg, s')
  {
    hide Step;
    var states, actions :| IsRun(cfg, states, actions) && Last(states) == s;
    var states', actions' := states + [s'], actions + [a];
    forall k | 0 <= k < |actions'| ensures Step(cfg, states'[k], actions'[k], states'[k + 1]) {
      if k < |actions| {
        assert Step(cfg, states[k], actions[k], states[k + 1]);
      }
    }
    assert IsRun(cfg, states', actions') && Last(states') == s';
  }

  lemma ReachInit(cfg: Config, s: State)
    requires ConfigOk(cfg) && Init(cfg, s)
    ensures Reachable(cfg, s)
  {
    assert IsRun(cfg, [s], []) && Last([s]) == s;
  }

  /** A submission is stamped before the queue is locked, so a later number can carry an earlier stamp. */
  lemma StampsCanBeOutOfOrder(cfg: Config)
    requires ConfigOk(cfg)
    ensures exists s ::
              Reachable(cfg, s) && |s.accepted| == 2 && s.accepted[0].submitTime > s.accepted[1].submitTime
  {
    var j := EmptyJob();
    var s0 := State(Shared([], 0, [], 0, [], 0, 0, false, false), [], 0, 2, DExited, seq(cfg.numWorkers, _ => WExited));
    ReachInit(cfg, s0);
    hide Reachable;
    var s1 := Apply(cfg, s0, SubmitPush(j, 2));
    ReachStep(cfg, s0, SubmitPush(j, 2), s1);
    var s2 := Apply(cfg, s1, SubmitPush(j, 1));
    ReachStep(cfg, s1, SubmitPush(j, 1), s2);
  }

  lemma DispReach(cfg: Config, s: State, s': State)
    requires Reachable(cfg, s) && DispEnabled(cfg, s, 0) && s' == DispApply(cfg, s, 0)
    ensures Reachable(cfg, s')
  {
    hide Reachable;
    hide DispApply;
    ReachStep(cfg, s, Disp(0), s');
  }

  /** The witness run after one `submit`: the first `gone` workers have left, the others wait. */
  function OneJob(cfg: Config, j: Job, queue: seq<Job>, batches: seq<seq<Job>>, shutdown: bool, d: DPc,
                  gone: nat): State {
    State(Shared(queue, 1, batches, 0, [], 0, 0, true, shutdown), [j], 1, 1, d,
          seq(cfg.numWorkers, i => if i < gone then WExited else WWait))
  }

  lemma JobSubmitted(cfg: Config, j: Job)
    requires ConfigOk(cfg) && j.submitTime == 1 && j.seqNo == 0
    ensures Reachable(cfg, OneJob(cfg, j, [j], [], false, WaitSpace, 0))
  {
    var out, waiting := seq(cfg.numWorkers, _ => WExited), seq(cfg.numWorkers, i => if i < 0 then WExited else WWait);
    var s0 := State(Shared([], 0, [], 0, [], 0, 0, false, false), [], 0, 1, DExited, out);
    ReachInit(cfg, s0);
    hide Reachable;
    var s1 := State(Shared([], 0, [], 0, [], 0, 0, true, false), [], 0, 1, WaitSpace, waiting);
    assert waiting == seq(|out|, _ => WWait);
    ReachStep(cfg, s0, Start, s1);
    ReachStep(cfg, s1, SubmitPush(j, 1), OneJob(cfg, j, [j], [], false, WaitSpace, 0));
  }

  lemma JobDrained(cfg: Config, j: Job)
    requires DrainOrder([j]) == [j]
    requires Reachable(cfg, OneJob(cfg, j, [j], [], false, WaitSpace, 0))
    ensures Reachable(cfg, OneJob(cfg, j, [], [], false, Triage([j]), 0))
  {
    hide Reachable;
    hide DrainOrder;
    hide Pack;
    hide BytesRequired;
    DispReach(cfg, OneJob(cfg, j, [j], [], false, WaitSpace, 0), OneJob(cfg, j, [j], [], false, WaitQueue, 0));
    DispReach(cfg, OneJob(cfg, j, [j], [], false, WaitQueue, 0), OneJob(cfg, j, [], [], false, Triage([j]), 0));
  }

  /** With one job in the dispatcher's hands `stop` is signalled, and the workers, finding no batch,
      leave one after the other. */
  lemma {:induction false} WorkersLeaveFirst(cfg: Config, j: Job, gone: nat)
    requires Reachable(cfg, OneJob(cfg, j, [], [], false, Triage([j]), 0)) && gone <= cfg.numWorkers
    ensures Reachable(cfg, OneJob(cfg, j, [], [], true, Triage([j]), gone))
  {
    hide Reachable;
    hide DispApply;
    hide BytesRequired;
    if gone == 0 {
      ReachStep(cfg, OneJob(cfg, j, [], [], false, Triage([j]), 0), StopSignal,
                OneJob(cfg, j, [], [], true, Triage([j]), 0));
    } else {
      WorkersLeaveFirst(cfg, j, gone - 1);
      var s, s' := OneJob(cfg, j, [], [], true, Triage([j]), gone - 1), OneJob(cfg, j, [], [], true, Triage([j]), gone);
      assert s'.workers == s.workers[gone - 1 := WExited];
      ReachStep(cfg, s, Work(gone - 1, Go), s');
    }
  }

  /** The dispatcher packs the job whatever budget it arrives at. */
  lemma DispatcherPacks(cfg: Config, j: Job, stop: bool, n: nat)
    requires j == EmptyJob().(submitTime := 1) && !cfg.gpuAbsent
    requires Oversized([j], MaxJobBytes(cfg)) == []
    requires Reachable(cfg, OneJob(cfg, j, [], [], stop, Triage([j]), n))
    ensures Reachable(cfg, OneJob(cfg, j, [], [], stop, Requeueing([j], []), n))
  {
    hide Reachable;
    hide BytesRequired;
    hide Pack;
    hide Oversized;
    hide MaxJobBytes;
    DispReach(cfg, OneJob(cfg, j, [], [], stop, Triage([j]), n), OneJob(cfg, j, [], [], stop, Sampling([j]), n));
    var budget: size_t := 0;
    if cfg.fixedBudget > 0 {
      budget := cfg.fixedBudget;
      DispReach(cfg, OneJob(cfg, j, [], [], stop, Sampling([j]), n),
                OneJob(cfg, j, [], [], stop, ReadLedger([j], budget), n));
      DispReach(cfg, OneJob(cfg, j, [], [], stop, ReadLedger([j], budget), n),
                OneJob(cfg, j, [], [], stop, Packing([j], budget), n));
    } else {
      DispReach(cfg, OneJob(cfg, j, [], [], stop, Sampling([j]), n),
                OneJob(cfg, j, [], [], stop, Packing([j], budget), n));
    }
    PackOfEmptyJob(j, budget, cfg.maxBatch);
    DispReach(cfg, OneJob(cfg, j, [], [], stop, Packing([j], budget), n),
              OneJob(cfg, j, [], [], stop, Requeueing([j], []), n));
  }

  lemma DispatcherPushes(cfg: Config, j: Job, stop: bool, n: nat)
    requires BatchBytes([j]) == 0
    requires Reachable(cfg, OneJob(cfg, j, [], [], stop, Requeueing([j], []), n))
    ensures Reachable(cfg, OneJob(cfg, j, [], [[j]], stop, WaitSpace, n))
  {
    hide Reachable;
    hide BytesRequired;
    hide Pack;
    hide BatchBytes;
    DispReach(cfg, OneJob(cfg, j, [], [], stop, Requeueing([j], []), n),
              OneJob(cfg, j, [], [], stop, Reserving([j]), n));
    DispReach(cfg, OneJob(cfg, j, [], [], stop, Reserving([j]), n), OneJob(cfg, j, [], [], stop, Pushing([j]), n));
    DispReach(cfg, OneJob(cfg, j, [], [], stop, Pushing([j]), n), OneJob(cfg, j, [], [[j]], stop, WaitSpace, n));
  }

  /** The dispatcher finishes its round alone and leaves at its next shutdown test. */
  lemma DispatcherPushesLast(cfg: Config, j: Job)
    requires BatchBytes([j]) == 0
    requires Reachable(cfg, OneJob(cfg, j, [], [], true, Requeueing([j], []), cfg.numWorkers))
    ensures Reachable(cfg, OneJob(cfg, j, [], [[j]], true, DExited, cfg.numWorkers))
  {
    hide Reachable;
    hide BatchBytes;
    var n := cfg.numWorkers;
    DispatcherPushes(cfg, j, true, n);
    DispReach(cfg, OneJob(cfg, j, [], [[j]], true, WaitSpace, n), OneJob(cfg, j, [], [[j]], true, DExited, n));
  }

  lemma StoppedWithBatch(cfg: Config, j: Job)
    requires Reachable(cfg, OneJob(cfg, j, [], [[j]], true, DExited, cfg.numWorkers))
    ensures exists s :: Reachable(cfg, s) && !s.sh.started && s.sh.batchQueue != []
  {
    hide Reachable;
    hide DispApply;
    var s := OneJob(cfg, j, [], [[j]], true, DExited, cfg.numWorkers);
    ReachStep(cfg, s, StopJoined, s.(sh := s.sh.(started := false)));
  }

  /** `stop` has joined all threads and a packed batch is still queued, because the workers left
      before the dispatcher, past its shutdown test, pushed it. */
  lemma PackedBatchCanBeLeftBehind(cfg: Config)
    requires ConfigOk(cfg) && !cfg.gpuAbsent
    ensures exists s :: Reachable(cfg, s) && !s.sh.started && s.sh.batchQueue != []
  {
    var j := EmptyJob().(submitTime := 1);
    EmptyJobTotals(j, MaxJobBytes(cfg));
    hide BytesRequired;
    hide Pack;
    hide DrainOrder;
    hide BatchBytes;
    hide DispApply;
    hide Reachable;
    hide Oversized;
    JobSubmitted(cfg, j);
    JobDrained(cfg, j);
    WorkersLeaveFirst(cfg, j, cfg.numWorkers);
    DispatcherPacks(cfg, j, true, cfg.numWorkers);
    DispatcherPushesLast(cfg, j);
    StoppedWithBatch(cfg, j);
  }

  /** Without a GPU the dispatcher fails everything it drains. */
  predicate NothingPacked(s: State) {
    && s.sh.batchQueue == []
    && match s.disp
       case Failing(_, after) => after.AfterNoGpu?
       case FailBump(_, after) => after.AfterNoGpu?
       case WaitSpace => true
       case WaitQueue => true
       case Triage(_) => true
       case DExited => true
       case _ => false
  }

  lemma {:induction false} NothingPackedWithoutGpu(cfg: Config, states: seq<State>, actions: seq<Action>)
    requires IsRun(cfg, states, actions) && cfg.gpuAbsent
    ensures NothingPacked(Last(states))
    decreases |actions|
  {
    hide BytesRequired;
    hide Pack;
    hide DrainOrder;
    if actions != [] {
      RunPrefix(cfg, states, actions);
      NothingPackedWithoutGpu(cfg, states[..|states| - 1], actions[..|actions| - 1]);
    }
  }

  /** The dispatcher's comment that in-flight batches complete at shutdown holds of every run exactly
      on hosts without a GPU, where no batch is ever packed. */
  lemma InFlightBatchesCompleteIff(cfg: Config)
    requires ConfigOk(cfg)
    ensures (forall s :: Reachable(cfg, s) && !s.sh.started ==> s.sh.batchQueue == []) <==> cfg.gpuAbsent
  {
    if cfg.gpuAbsent {
      forall s | Reachable(cfg, s) ensures s.sh.batchQueue == [] {
        var states, actions :| IsRun(cfg, states, actions) && Last(states) == s;
        NothingPackedWithoutGpu(cfg, states, actions);
      }
    } else {
      PackedBatchCanBeLeftBehind(cfg);
      hide Reachable;
    }
  }
}
