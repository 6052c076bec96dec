/** Job conservation: whatever the interleaving, every accepted job is in exactly one place. */
module Conservation {
  import opened Totals
  import opened Sorting
  import opened Jobs
  import opened Packing
  import opened Protocol

  // ----- weights spread over the places a job can be in

  function KeptBy(after: After): seq<Job> {
    if after.AfterNoGpu? then [] else after.kept
  }

  /** Jobs held by the dispatcher and not yet recorded, queued or pushed. */
  function Hands(d: DPc): seq<Job> {
    match d
    case Triage(c) => c
    case Failing(f, after) => f + KeptBy(after)
    case FailBump(_, after) => KeptBy(after)
    case Sampling(c) => c
    case ReadLedger(c, _) => c
    case Packing(c, _) => c
    case Requeueing(sel, rem) => sel + rem
    case Reserving(sel) => sel
    case Pushing(sel) => sel
    case _ => []
  }

  /** The batch of a worker that has not recorded it yet. */
  function Unrecorded(pc: WPc): seq<Job> {
    match pc
    case WRun(b, _, _) => b
    case WGiveUp(b) => b
    case _ => []
  }

  function BatchLoad(w: Job -> nat): seq<Job> -> nat {
    (b: seq<Job>) => Total(b, w)
  }

  function WorkerLoad(w: Job -> nat): WPc -> nat {
    (pc: WPc) => Total(Unrecorded(pc), w)
  }

  function Load(s: State, w: Job -> nat): nat {
    Total(s.sh.queue, w) + Total(Hands(s.disp), w) + Total(s.sh.batchQueue, BatchLoad(w))
        + Total(s.workers, WorkerLoad(w))
  }

  /** A weight on jobs and a weight on metrics rows that agree. */
  ghost predicate Agree(wj: Job -> nat, wr: Row -> nat) {
    forall j, ok :: wr(RowOf(j, ok)) == wj(j)
  }

  function Books(s: State, wj: Job -> nat, wr: Row -> nat): nat {
    Load(s, wj) + Total(s.sh.metrics, wr)
  }

  lemma {:induction false} RowsTotal(batch: seq<Job>, ok: bool, wj: Job -> nat, wr: Row -> nat)
    requires Agree(wj, wr)
    ensures Total(RowsOf(batch, ok), wr) == Total(batch, wj)
    ensures |RowsOf(batch, ok)| == |batch|
  {
    if batch != [] {
      RowsTotal(batch[..|batch| - 1], ok, wj, wr);
      TotalSnoc(RowsOf(batch[..|batch| - 1], ok), RowOf(batch[|batch| - 1], ok), wr);
    }
  }

  lemma RecordTotal(metrics: seq<Row>, batch: seq<Job>, ok: bool, wj: Job -> nat, wr: Row -> nat)
    requires Agree(wj, wr)
    ensures Total(metrics + RowsOf(batch, ok), wr) == Total(metrics, wr) + Total(batch, wj)
  {
    TotalConcat(metrics, RowsOf(batch, ok), wr);
    RowsTotal(batch, ok, wj, wr);
  }

  lemma {:induction false} SplitTotal(c: seq<Job>, maxJob: size_t, w: Job -> nat)
    ensures Total(Oversized(c, maxJob), w) + Total(Fitting(c, maxJob), w) == Total(c, w)
  {
    hide BytesRequired;
    if c != [] {
      var front, x := c[..|c| - 1], c[|c| - 1];
      SplitTotal(front, maxJob, w);
      TotalSnoc(Oversized(front, maxJob), x, w);
      TotalSnoc(Fitting(front, maxJob), x, w);
      assert Oversized(front, maxJob) + [] == Oversized(front, maxJob);
      assert Fitting(front, maxJob) + [] == Fitting(front, maxJob);
    }
  }

  lemma DrainTotal(queue: seq<Job>, w: Job -> nat)
    ensures Total(DrainOrder(queue), w) == Total(queue, w)
  {
    SortPermutes(queue, PopsBefore());
    TotalPermutation(DrainOrder(queue), queue, w);
  }

  lemma PackTotal(c: seq<Job>, budget: size_t, maxBatch: int32, now: int, w: Job -> nat)
    ensures
      var p := Pack(c, budget, maxBatch, now);
      Total(p.selected + p.remaining, w) == Total(c, w) == Total(p.selected, w) + Total(p.remaining, w)
  {
    var p := Pack(c, budget, maxBatch, now);
    PackPartitions(c, budget, maxBatch, now);
    TotalPermutation(p.selected + p.remaining, c, w);
    TotalConcat(p.selected, p.remaining, w);
  }

  // ----- every step balances the books

  /** The jobs a step turns into metrics rows. */
  function DispRecorded(d: DPc): seq<Job> {
    if d.Failing? then d.failed else []
  }

  function WorkRecorded(pc: WPc): seq<Job> {
    match pc
    case WRun(b, _, next) => if next >= |Buffers(b)| then b else []
    case WGiveUp(b) => b
    case _ => []
  }

  lemma DispatcherLoad(cfg: Config, s: State, free: size_t, w: Job -> nat)
    requires DispEnabled(cfg, s, free)
    ensures Load(DispApply(cfg, s, free), w) + Total(DispRecorded(s.disp), w) == Load(s, w)
  {
    hide BytesRequired;
    hide Total;
    hide Pack;
    hide Oversized;
    hide Fitting;
    hide RowsOf;
    hide DrainOrder;
    EmptyTotals(w);
    match s.disp
    case WaitQueue => DrainTotal(s.sh.queue, w);
    case Triage(c) =>
      SplitTotal(c, MaxJobBytes(cfg), w);
      TotalConcat(Oversized(c, MaxJobBytes(cfg)), Fitting(c, MaxJobBytes(cfg)), w);
      assert c + [] == c;
    case Failing(f, after) => TotalConcat(f, KeptBy(after), w);
    case Packing(c, budget) => PackTotal(c, budget, cfg.maxBatch, s.clock, w);
    case Requeueing(sel, rem) =>
      TotalConcat(sel, rem, w);
      TotalConcat(s.sh.queue, rem, w);
    case Pushing(sel) => TotalSnoc(s.sh.batchQueue, sel, BatchLoad(w));
    case _ =>
  }

  lemma DispatcherMetrics(cfg: Config, s: State, free: size_t)
    requires DispEnabled(cfg, s, free)
    ensures DispApply(cfg, s, free).sh.metrics == s.sh.metrics + RowsOf(DispRecorded(s.disp), false)
  {
    hide BytesRequired;
  }

  lemma EmptyTotals(w: Job -> nat)
    ensures Total([], w) == 0
    ensures forall after: After :: after.AfterNoGpu? ==> Total(KeptBy(after), w) == 0
  {
  }

  lemma PopTotal(bq: seq<seq<Job>>, w: Job -> nat)
    requires bq != []
    ensures Total(bq, BatchLoad(w)) == Total(bq[0], w) + Total(bq[1..], BatchLoad(w))
  {
    TotalRemove(bq, 0, BatchLoad(w));
    assert bq[..0] + bq[1..] == bq[1..];
  }

  lemma WorkerLoadStep(cfg: Config, s: State, i: nat, act: WAct, w: Job -> nat)
    requires WorkEnabled(s, i, act)
    ensures Load(Apply(cfg, s, Work(i, act)), w) + Total(WorkRecorded(s.workers[i]), w) == Load(s, w)
  {
    hide BytesRequired;
    hide Total;
    hide RowsOf;
    hide Buffers;
    EmptyTotals(w);
    var pc := s.workers[i];
    TotalUpdate(s.workers, i, WorkerNext(cfg, s, pc, act), WorkerLoad(w));
    if pc.WWait? && s.sh.batchQueue != [] {
      PopTotal(s.sh.batchQueue, w);
    }
  }

  lemma {:induction false} IdleWorkersWeighNothing(ws: seq<WPc>, w: Job -> nat)
    requires forall i :: 0 <= i < |ws| ==> ws[i].WExited? || ws[i].WWait?
    ensures Total(ws, WorkerLoad(w)) == 0
  {
    TotalZero(ws, WorkerLoad(w));
  }

  /** Threads exist only between `start` and the joins of `stop`. */
  ghost predicate ThreadsOnlyWhileStarted(s: State) {
    !s.sh.started ==> AllExited(s)
  }

  /** The jobs recorded by a step, with the outcome they are recorded with. */
  function Recorded(s: State, a: Action): seq<Job> {
    match a
    case Disp(_) => DispRecorded(s.disp)
    case Work(i, _) => if i < |s.workers| then WorkRecorded(s.workers[i]) else []
    case _ => []
  }

  function RecordedOk(s: State, a: Action): bool {
    a.Work? && a.act.Go? && a.w < |s.workers| && s.workers[a.w].WRun?
  }

  /** What a step adds to the jobs in flight is the job it accepts; what it removes is exactly the
      jobs it records. */
  lemma StepLoad(cfg: Config, s: State, a: Action, s': State, w: Job -> nat)
    requires Step(cfg, s, a, s') && ThreadsOnlyWhileStarted(s)
    ensures Load(s', w) + Total(Recorded(s, a), w) + Total(s.accepted, w) == Load(s, w) + Total(s'.accepted, w)
  {
    hide Pack;
    match a
    case Disp(free) =>
      DispatcherLoad(cfg, s, free, w);
      DispatcherLeavesHistory(cfg, s, free);
    case Work(i, act) => WorkerLoadStep(cfg, s, i, act, w);
    case SubmitPush(job, at) =>
      var j := Stamped(job, at, s.sh.nextSeq);
      TotalSnoc(s.sh.queue, j, w);
      TotalSnoc(s.accepted, j, w);
    case Start =>
      IdleWorkersWeighNothing(s.workers, w);
      IdleWorkersWeighNothing(s'.workers, w);
    case _ =>
  }

  lemma StepMetrics(cfg: Config, s: State, a: Action, s': State)
    requires Step(cfg, s, a, s')
    ensures s'.sh.metrics == s.sh.metrics + RowsOf(Recorded(s, a), RecordedOk(s, a))
  {
    hide BytesRequired;
    hide DispApply;
    hide Buffers;
    match a
    case Disp(free) => DispatcherMetrics(cfg, s, free);
    case _ =>
  }

  lemma StepBooks(cfg: Config, s: State, a: Action, s': State, wj: Job -> nat, wr: Row -> nat)
    requires Step(cfg, s, a, s') && Agree(wj, wr) && ThreadsOnlyWhileStarted(s)
    ensures Books(s', wj, wr) + Total(s.accepted, wj) == Books(s, wj, wr) + Total(s'.accepted, wj)
  {
    StepLoad(cfg, s, a, s', wj);
    StepMetrics(cfg, s, a, s');
    hide Step;
    hide Load;
    RecordTotal(s.sh.metrics, Recorded(s, a), RecordedOk(s, a), wj, wr);
  }

  lemma DispatcherKeepsThreads(cfg: Config, s: State, free: size_t)
    requires DispEnabled(cfg, s, free) && ThreadsOnlyWhileStarted(s)
    ensures ThreadsOnlyWhileStarted(DispApply(cfg, s, free))
    ensures |DispApply(cfg, s, free).workers| == |s.workers|
  {
    hide BytesRequired;
  }

  lemma StepKeepsThreads(cfg: Config, s: State, a: Action, s': State)
    requires Step(cfg, s, a, s') && ThreadsOnlyWhileStarted(s)
    ensures ThreadsOnlyWhileStarted(s') && |s'.workers| == |s.workers|
  {
    hide BytesRequired;
    match a
    case Disp(free) => DispatcherKeepsThreads(cfg, s, free);
    case _ =>
  }

  lemma {:induction false} RunKeepsThreads(cfg: Config, states: seq<State>, actions: seq<Action>)
    requires IsRun(cfg, states, actions)
    ensures ThreadsOnlyWhileStarted(Last(states)) && |Last(states).workers| == cfg.numWorkers
    decreases |actions|
  {
    hide Step;
    if actions != [] {
      RunPrefix(cfg, states, actions);
      RunKeepsThreads(cfg, states[..|states| - 1], actions[..|actions| - 1]);
      StepKeepsThreads(cfg, Last(states[..|states| - 1]), actions[|actions| - 1], Last(states));
    }
  }

  /** In every reachable state the queue, the dispatcher's hands, the packed batches, the workers'
      unrecorded batches and the metrics together weigh what the accepted jobs weigh, for every
      weight. */
  lemma {:induction false} RunBooks(cfg: Config, states: seq<State>, actions: seq<Action>, wj: Job -> nat,
                                    wr: Row -> nat)
    requires IsRun(cfg, states, actions) && Agree(wj, wr)
    ensures Books(Last(states), wj, wr) == Total(Last(states).accepted, wj)
    decreases |actions|
  {
    hide BytesRequired;
    hide Step;
    if actions == [] {
      IdleWorkersWeighNothing(states[0].workers, wj);
      EmptyTotals(wj);
    } else {
      RunPrefix(cfg, states, actions);
      var prefix := states[..|states| - 1];
      RunBooks(cfg, prefix, actions[..|actions| - 1], wj, wr);
      RunKeepsThreads(cfg, prefix, actions[..|actions| - 1]);
      hide Books;
      StepBooks(cfg, Last(prefix), actions[|actions| - 1], Last(states), wj, wr);
    }
  }

  /** No job is in flight without having been accepted: a weight that vanishes on the accepted
      jobs vanishes on everything in flight. */
  lemma {:induction false} RunLoad(cfg: Config, states: seq<State>, actions: seq<Action>, w: Job -> nat)
    requires IsRun(cfg, states, actions)
    ensures Load(Last(states), w) <= Total(Last(states).accepted, w)
    decreases |actions|
  {
    hide BytesRequired;
    hide Step;
    if actions == [] {
      IdleWorkersWeighNothing(states[0].workers, w);
      EmptyTotals(w);
    } else {
      RunPrefix(cfg, states, actions);
      var prefix := states[..|states| - 1];
      RunLoad(cfg, prefix, actions[..|actions| - 1], w);
      RunKeepsThreads(cfg, prefix, actions[..|actions| - 1]);
      hide Load;
      StepLoad(cfg, Last(prefix), actions[|actions| - 1], Last(states), w);
    }
  }

  // ----- exactly once

  function HasSeq(q: nat): Job -> nat {
    (j: Job) => if j.seqNo == q then 1 else 0
  }

  function RowHasSeq(q: nat): Row -> nat {
    (r: Row) => if r.seqNo == q then 1 else 0
  }

  /** Sequence numbers are handed out in order; every accepted job carries a past, positive stamp. */
  ghost predicate AcceptedInOrder(s: State) {
    && |s.accepted| == s.sh.nextSeq == s.sh.submitted + s.unbumped
    && s.clock > 0
    && forall k :: 0 <= k < |s.accepted| ==> s.accepted[k].seqNo == k && 0 < s.accepted[k].submitTime <= s.clock
  }

  lemma DispatcherLeavesHistory(cfg: Config, s: State, free: size_t)
    requires DispEnabled(cfg, s, free)
    ensures
      var s' := DispApply(cfg, s, free);
      && s'.accepted == s.accepted && s'.unbumped == s.unbumped && s'.clock == s.clock
      && s'.sh.nextSeq == s.sh.nextSeq && s'.sh.submitted == s.sh.submitted
      && s'.sh.started == s.sh.started && s'.sh.shutdown == s.sh.shutdown && s'.workers == s.workers
  {
    hide BytesRequired;
  }

  lemma {:induction false} RunAccepts(cfg: Config, states: seq<State>, actions: seq<Action>)
    requires IsRun(cfg, states, actions)
    ensures AcceptedInOrder(Last(states))
    decreases |actions|
  {
    hide BytesRequired;
    if actions != [] {
      RunPrefix(cfg, states, actions);
      var s, a := Last(states[..|states| - 1]), actions[|actions| - 1];
      RunAccepts(cfg, states[..|states| - 1], actions[..|actions| - 1]);
      AcceptStep(cfg, s, a, Last(states));
    }
  }

  lemma AcceptStep(cfg: Config, s: State, a: Action, s': State)
    requires Step(cfg, s, a, s') && AcceptedInOrder(s)
    ensures AcceptedInOrder(s')
  {
    hide BytesRequired;
    hide DispApply;
    match a
    case Disp(free) => DispatcherLeavesHistory(cfg, s, free);
    case _ =>
  }

  lemma {:induction false} AcceptedOnce(accepted: seq<Job>, q: nat)
    requires forall k :: 0 <= k < |accepted| ==> accepted[k].seqNo == k
    ensures Total(accepted, HasSeq(q)) == if q < |accepted| then 1 else 0
  {
    if accepted != [] {
      AcceptedOnce(accepted[..|accepted| - 1], q);
    }
  }

  /** Exactly once: in every reachable state each assigned sequence number occurs exactly once
      among the queue, the dispatcher's hands, the packed batches, the workers' unrecorded batches
      and the metrics rows; a number not yet assigned occurs nowhere. */
  lemma JobsAreConserved(cfg: Config, states: seq<State>, actions: seq<Action>, q: nat)
    requires IsRun(cfg, states, actions)
    ensures
      var s := Last(states);
      Load(s, HasSeq(q)) + Total(s.sh.metrics, RowHasSeq(q)) == if q < s.sh.nextSeq then 1 else 0
  {
    hide BytesRequired;
    RunBooks(cfg, states, actions, HasSeq(q), RowHasSeq(q));
    RunAccepts(cfg, states, actions);
    AcceptedOnce(Last(states).accepted, q);
  }

  /** Counting all places: the accepted jobs are those recorded plus those still in flight. */
  lemma JobCountsBalance(cfg: Config, states: seq<State>, actions: seq<Action>)
    requires IsRun(cfg, states, actions)
    ensures
      var s := Last(states);
      Load(s, One()) + |s.sh.metrics| == s.sh.nextSeq
  {
    hide BytesRequired;
    RunBooks(cfg, states, actions, One(), One());
    RunAccepts(cfg, states, actions);
    UnitTotal(Last(states).accepted);
    UnitTotal(Last(states).sh.metrics);
  }
}
