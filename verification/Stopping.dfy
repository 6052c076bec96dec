/** Progress of the threads: nobody is ever stuck while there is work, and after `stop` has signalled every
    thread leaves after a bounded number of steps. */
module Stopping {
  import opened Totals
  import opened Jobs
  import opened Packing
  import opened Protocol
  import opened Conservation
  import opened Lifecycle

  // ----- nobody is stuck

  predicate InBounds(pc: WPc) {
    pc.WRun? ==> pc.attempt <= MAX_ALLOC_RETRIES && pc.next <= |Buffers(pc.batch)|
  }

  /** Threads leave only on shutdown, and a trying worker is within its retries and its buffers. */
  ghost predicate ThreadsInv(s: State) {
    && (s.sh.started && !s.sh.shutdown ==>
          !s.disp.DExited? && forall i :: 0 <= i < |s.workers| ==> !s.workers[i].WExited?)
    && forall i :: 0 <= i < |s.workers| ==> InBounds(s.workers[i])
  }

  lemma ThreadsStep(cfg: Config, s: State, a: Action, s': State)
    requires Step(cfg, s, a, s') && ThreadsInv(s) && ThreadsOnlyWhileStarted(s)
    ensures ThreadsInv(s')
  {
    hide BytesRequired;
    hide Buffers;
    hide DispApply;
    match a
    case Disp(free) =>
      DispatcherLeavesHistory(cfg, s, free);
      if s'.disp.DExited? {
        LeavesOnShutdown(cfg, s, free);
      }
    case Work(i, act) => WorkerStaysInBounds(cfg, s, i, act);
    case _ =>
  }

  lemma LeavesOnShutdown(cfg: Config, s: State, free: size_t)
    requires DispApply(cfg, s, free).disp.DExited?
    ensures s.disp.DExited? || s.sh.shutdown
  {
    hide BytesRequired;
    hide Pack;
    hide DrainOrder;
    hide TriageNext;
    if s.disp.Triage? {
      TriageGoesOn(cfg, s.disp.cands);
    }
  }

  lemma TriageGoesOn(cfg: Config, c: seq<Job>)
    ensures TriageNext(cfg, c).Failing? || TriageNext(cfg, c) == Sampling(c)
    ensures TriageNext(cfg, c).Failing? ==> |KeptBy(TriageNext(cfg, c).after)| <= |c|
  {
    FittingIsShorter(c, MaxJobBytes(cfg));
    hide BytesRequired;
    hide Oversized;
    hide Fitting;
  }

  lemma {:induction false} FittingIsShorter(c: seq<Job>, maxJob: size_t)
    ensures |Fitting(c, maxJob)| <= |c|
  {
    hide BytesRequired;
    if c != [] {
      FittingIsShorter(c[..|c| - 1], maxJob);
    }
  }

  lemma WorkerStaysInBounds(cfg: Config, s: State, i: nat, act: WAct)
    requires WorkEnabled(s, i, act) && ThreadsInv(s)
    ensures ThreadsInv(Apply(cfg, s, Work(i, act)))
  {
    hide BytesRequired;
    hide Buffers;
    hide RowsOf;
    hide BatchBytes;
  }

  lemma {:induction false} RunThreads(cfg: Config, states: seq<State>, actions: seq<Action>)
    requires IsRun(cfg, states, actions)
    ensures ThreadsInv(Last(states))
    decreases |actions|
  {
    hide Step;
    if actions != [] {
      RunPrefix(cfg, states, actions);
      var prefix := states[..|states| - 1];
      RunThreads(cfg, prefix, actions[..|actions| - 1]);
      RunKeepsThreads(cfg, prefix, actions[..|actions| - 1]);
      hide IsRun;
      hide ThreadsInv;
      ThreadsStep(cfg, Last(prefix), actions[|actions| - 1], Last(states));
    }
  }

  /** A dispatcher or worker can take a step. */
  ghost predicate SomeThreadCanStep(cfg: Config, s: State) {
    exists a: Action :: (a.Disp? || a.Work?) && Enabled(cfg, s, a)
  }

  /** Everything accepted is recorded, and everybody waits for more. */
  predicate NothingToDo(s: State) {
    && s.disp.WaitQueue? && s.sh.queue == [] && s.sh.batchQueue == []
    && forall i :: 0 <= i < |s.workers| ==> s.workers[i].WWait?
  }

  lemma DispatcherCan(cfg: Config, s: State)
    requires DispEnabled(cfg, s, 0)
    ensures SomeThreadCanStep(cfg, s)
  {
    assert Enabled(cfg, s, Disp(0));
  }

  lemma WorkerCan(cfg: Config, s: State, i: nat)
    requires WorkEnabled(s, i, Go)
    ensures SomeThreadCanStep(cfg, s)
  {
    assert Enabled(cfg, s, Work(i, Go));
  }

  /** With a worker, in every reachable state of a started scheduler some thread can go on, unless there
      is nothing to do or all threads have left for `stop` to join. */
  lemma NobodyIsStuck(cfg: Config, states: seq<State>, actions: seq<Action>)
    requires IsRun(cfg, states, actions) && Last(states).sh.started && cfg.numWorkers >= 1
    ensures
      var s := Last(states);
      SomeThreadCanStep(cfg, s) || (if s.sh.shutdown then AllExited(s) else NothingToDo(s))
  {
    hide Step;
    hide Init;
    RunThreads(cfg, states, actions);
    RunKeepsThreads(cfg, states, actions);
    hide IsRun;
    hide SomeThreadCanStep;
    hide DispEnabled;
    hide WorkEnabled;
    var s := Last(states);
    if DispEnabled(cfg, s, 0) {
      DispatcherCan(cfg, s);
    } else if i: nat :| i < |s.workers| && WorkEnabled(s, i, Go) {
      WorkerCan(cfg, s, i);
    } else {
      AllWait(cfg, s);
    }
  }

  lemma AllWait(cfg: Config, s: State)
    requires s.sh.started && |s.workers| >= 1 && ThreadsInv(s)
    requires !DispEnabled(cfg, s, 0) && forall i: nat :: i < |s.workers| ==> !WorkEnabled(s, i, Go)
    ensures if s.sh.shutdown then AllExited(s) else NothingToDo(s)
  {
    hide Buffers;
    forall i | 0 <= i < |s.workers|
      ensures s.workers[i].WExited? || (s.workers[i].WWait? && !s.sh.shutdown && s.sh.batchQueue == [])
    {
      assert !WorkEnabled(s, i, Go);
    }
    assert !s.sh.shutdown ==> s.workers[0].WWait?;
  }

  // ----- everybody leaves

  /** Steps a worker may take for a batch whose jobs need `n` buffers, all retries included. */
  function BatchSteps(n: nat): nat {
    201 * (n + 1) + 5
  }

  function BufferCount(batch: seq<Job>): nat {
    3 * |batch|
  }

  function QueuedSteps(): seq<Job> -> nat {
    (b: seq<Job>) => BatchSteps(BufferCount(b))
  }

  /** Steps of the attempts still left after this one. */
  function RetrySteps(n: nat, attempt: nat): nat {
    if attempt <= 200 then (200 - attempt) * (n + 1) else 0
  }

  /** Steps a worker may still take before it waits again, and one to leave. */
  function WorkerSteps(): WPc -> nat {
    (pc: WPc) =>
      match pc
      case WWait => 1
      case WRun(b, attempt, next) =>
        RetrySteps(BufferCount(b), attempt) + (if next <= BufferCount(b) then BufferCount(b) - next else 0) + 6
      case WGiveUp(_) => 5
      case WBump(_, _) => 4
      case WFree(_, _) => 3
      case WRelease(_) => 2
      case WExited => 0
  }

  /** Steps the dispatcher may still take, and those its batch may cost a worker. */
  function DispatcherSteps(d: DPc): nat {
    match d
    case WaitSpace => 1
    case WaitQueue => 1
    case Triage(c) => 10 + BatchSteps(BufferCount(c))
    case Failing(_, after) => 9 + BatchSteps(BufferCount(KeptBy(after)))
    case FailBump(_, after) => 8 + BatchSteps(BufferCount(KeptBy(after)))
    case Sampling(c) => 7 + BatchSteps(BufferCount(c))
    case ReadLedger(c, _) => 6 + BatchSteps(BufferCount(c))
    case Packing(c, _) => 5 + BatchSteps(BufferCount(c))
    case Requeueing(sel, _) => 4 + BatchSteps(BufferCount(sel))
    case Reserving(sel) => 3 + BatchSteps(BufferCount(sel))
    case Pushing(sel) => 2 + BatchSteps(BufferCount(sel))
    case DExited => 0
  }

  /** A bound on the steps all threads together may still take once `stop` has signalled. */
  function StepsToGo(s: State): nat {
    DispatcherSteps(s.disp) + Total(s.sh.batchQueue, QueuedSteps()) + Total(s.workers, WorkerSteps())
  }

  lemma FewerBuffersFewerSteps(a: nat, b: nat)
    requires a <= b
    ensures BatchSteps(3 * a) <= BatchSteps(3 * b)
  {
  }

  lemma DispatcherAdvances(cfg: Config, s: State, free: size_t)
    requires DispEnabled(cfg, s, free) && s.sh.shutdown
    ensures StepsToGo(DispApply(cfg, s, free)) < StepsToGo(s)
  {
    hide BytesRequired;
    hide Pack;
    hide DrainOrder;
    hide TriageNext;
    hide Total;
    hide RowsOf;
    hide BatchBytes;
    hide BatchSteps;
    DispatcherLeavesHistory(cfg, s, free);
    match s.disp
    case Triage(c) =>
      TriageGoesOn(cfg, c);
      if TriageNext(cfg, c).Failing? {
        FewerBuffersFewerSteps(|KeptBy(TriageNext(cfg, c).after)|, |c|);
      }
    case Packing(c, budget) =>
      SelectionIsShorter(c, budget, cfg.maxBatch, s.clock);
      FewerBuffersFewerSteps(|Pack(c, budget, cfg.maxBatch, s.clock).selected|, |c|);
    case Pushing(sel) => TotalSnoc(s.sh.batchQueue, sel, QueuedSteps());
    case _ =>
  }

  lemma SelectionIsShorter(c: seq<Job>, budget: size_t, maxBatch: int32, now: int)
    ensures |Pack(c, budget, maxBatch, now).selected| <= |c|
  {
    var p := Pack(c, budget, maxBatch, now);
    PackPartitions(c, budget, maxBatch, now);
    hide Pack;
    assert |multiset(p.selected)| + |multiset(p.remaining)| == |multiset(c)|;
  }

  lemma {:induction false} ThreeBuffersEach(batch: seq<Job>)
    ensures |Buffers(batch)| == BufferCount(batch)
  {
    if batch != [] {
      ThreeBuffersEach(batch[..|batch| - 1]);
    }
  }

  /** The worker itself gets closer to its end, or takes on what was queued. */
  lemma WorkerGetsOn(cfg: Config, s: State, i: nat, act: WAct)
    requires WorkEnabled(s, i, act) && InBounds(s.workers[i])
    ensures
      var pc := s.workers[i];
      var taken := if pc.WWait? && s.sh.batchQueue != [] then QueuedSteps()(s.sh.batchQueue[0]) else 0;
      WorkerSteps()(WorkerNext(cfg, s, pc, act)) < WorkerSteps()(pc) + taken
  {
    var pc := s.workers[i];
    if pc.WRun? {
      ThreeBuffersEach(pc.batch);
      Retried(BufferCount(pc.batch), pc.attempt);
    } else if pc.WWait? && s.sh.batchQueue != [] {
      Retried(BufferCount(s.sh.batchQueue[0]), 0);
    }
    hide RetrySteps;
    hide Buffers;
  }

  lemma Retried(n: nat, attempt: nat)
    requires attempt <= 200
    ensures attempt < 200 ==> RetrySteps(n, attempt) == RetrySteps(n, attempt + 1) + n + 1
    ensures RetrySteps(n, 0) == 200 * (n + 1)
  {
  }

  lemma WorkerTakes(sh: Shared, pc: WPc, act: WAct)
    ensures
      WorkerShared(sh, pc, act).batchQueue
      == if pc.WWait? && sh.batchQueue != [] then sh.batchQueue[1..] else sh.batchQueue
  {
    hide Buffers;
    hide RowsOf;
    hide BatchBytes;
  }

  lemma BatchLeavesQueue(bq: seq<seq<Job>>)
    requires bq != []
    ensures Total(bq, QueuedSteps()) == Total(bq[1..], QueuedSteps()) + QueuedSteps()(bq[0])
  {
    TotalRemove(bq, 0, QueuedSteps());
    hide QueuedSteps;
    assert bq[..0] + bq[1..] == bq[1..];
    hide Total;
  }

  lemma WorkerAdvances(cfg: Config, s: State, i: nat, act: WAct)
    requires WorkEnabled(s, i, act) && InBounds(s.workers[i])
    ensures StepsToGo(Apply(cfg, s, Work(i, act))) < StepsToGo(s)
  {
    WorkerGetsOn(cfg, s, i, act);
    WorkerTakes(s.sh, s.workers[i], act);
    var pc, next := s.workers[i], WorkerNext(cfg, s, s.workers[i], act);
    var s' := Apply(cfg, s, Work(i, act));
    assert s'.disp == s.disp && s'.workers == s.workers[i := next] && s'.sh == WorkerShared(s.sh, pc, act);
    hide Apply;
    hide WorkEnabled;
    hide InBounds;
    hide Total;
    hide WorkerSteps;
    hide QueuedSteps;
    hide WorkerNext;
    hide WorkerShared;
    hide DispatcherSteps;
    TotalUpdate(s.workers, i, next, WorkerSteps());
    if pc.WWait? && s.sh.batchQueue != [] {
      BatchLeavesQueue(s.sh.batchQueue);
    }
  }

  function ThreadStep(a: Action): nat {
    if a.Disp? || a.Work? then 1 else 0
  }

  /** `stop` has signalled at step `from` and has not joined the threads yet. */
  ghost predicate StopPending(states: seq<State>, actions: seq<Action>, from: nat) {
    && from <= |actions| && |states| == |actions| + 1
    && states[from].sh.started && states[from].sh.shutdown
    && forall k :: from <= k < |actions| ==> !actions[k].StopJoined?
  }

  function ThreadSteps(actions: seq<Action>): nat {
    if actions == [] then 0 else ThreadSteps(actions[..|actions| - 1]) + ThreadStep(actions[|actions| - 1])
  }

  lemma PendingStep(cfg: Config, s: State, a: Action, s': State)
    requires Step(cfg, s, a, s') && s.sh.started && s.sh.shutdown && !a.StopJoined? && ThreadsInv(s)
    ensures s'.sh.started && s'.sh.shutdown
    ensures StepsToGo(s') + ThreadStep(a) <= StepsToGo(s)
  {
    hide DispApply;
    hide Buffers;
    match a
    case Disp(free) =>
      DispatcherLeavesHistory(cfg, s, free);
      DispatcherAdvances(cfg, s, free);
      hide StepsToGo;
    case Work(i, act) =>
      WorkerAdvances(cfg, s, i, act);
      hide StepsToGo;
    case _ =>
  }

  /** Once `stop` has signalled, whatever else happens, the threads take at most `StepsToGo` steps, and with
      `NobodyIsStuck` they all leave: submissions and clock ticks never prolong it. */
  lemma {:induction false} StopIsBounded(cfg: Config, states: seq<State>, actions: seq<Action>, from: nat)
    requires IsRun(cfg, states, actions) && StopPending(states, actions, from)
    ensures Last(states).sh.started && Last(states).sh.shutdown
    ensures ThreadSteps(actions[from..]) + StepsToGo(Last(states)) <= StepsToGo(states[from])
    decreases |actions|
  {
    hide Step;
    hide StepsToGo;
    hide Init;
    if from < |actions| {
      var k := |actions| - 1;
      RunPrefix(cfg, states, actions);
      var prefix := states[..|states| - 1];
      assert prefix[from] == states[from];
      StopIsBounded(cfg, prefix, actions[..k], from);
      RunThreads(cfg, prefix, actions[..k]);
      hide IsRun;
      hide ThreadsInv;
      PendingStep(cfg, Last(prefix), actions[k], Last(states));
      assert actions[from..][..k - from] == actions[..k][from..];
      assert actions[from..][k - from] == actions[k];
    }
  }

  /** So every pending `stop` can be brought to its end, from whatever state the threads are in. */
  lemma {:induction false} StopCompletes(cfg: Config, s: State)
    requires Reachable(cfg, s) && s.sh.started && s.sh.shutdown && cfg.numWorkers >= 1
    ensures exists s' :: Reachable(cfg, s') && !s'.sh.started
    decreases StepsToGo(s)
  {
    hide StepsToGo;
    hide Step;
    hide Init;
    hide AllExited;
    var states, actions :| IsRun(cfg, states, actions) && Last(states) == s;
    NobodyIsStuck(cfg, states, actions);
    RunThreads(cfg, states, actions);
    hide IsRun;
    hide Reachable;
    hide ThreadsInv;
    if SomeThreadCanStep(cfg, s) {
      var s' := ThreadsGoOn(cfg, s);
      StopCompletes(cfg, s');
    } else {
      JoinedIsReachable(cfg, s);
    }
  }

  lemma ThreadsGoOn(cfg: Config, s: State) returns (s': State)
    requires Reachable(cfg, s) && s.sh.started && s.sh.shutdown && ThreadsInv(s) && SomeThreadCanStep(cfg, s)
    ensures Reachable(cfg, s') && s'.sh.started && s'.sh.shutdown && StepsToGo(s') < StepsToGo(s)
  {
    var a: Action :| (a.Disp? || a.Work?) && Enabled(cfg, s, a);
    hide Enabled;
    hide StepsToGo;
    hide Reachable;
    hide ThreadsInv;
    s' := Apply(cfg, s, a);
    hide Apply;
    ReachStep(cfg, s, a, s');
    PendingStep(cfg, s, a, s');
  }

  lemma JoinedIsReachable(cfg: Config, s: State)
    requires Reachable(cfg, s) && s.sh.started && s.sh.shutdown && AllExited(s)
    ensures exists s' :: Reachable(cfg, s') && !s'.sh.started
  {
    hide Reachable;
    hide AllExited;
    ReachStep(cfg, s, StopJoined, s.(sh := s.sh.(started := false)));
  }
}
