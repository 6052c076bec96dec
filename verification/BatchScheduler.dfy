/** The scheduler object in imperative form. Each method is one of the source's member functions or
    critical sections; its effect is an update of the protocol's shared state, and one whole
    uninterrupted dispatcher iteration is a sequence of dispatcher steps of the protocol. */
module BatchSchedulers {
  import opened Totals
  import opened Sorting
  import opened Jobs
  import opened Packing
  import opened Protocol
  import opened Metrics
  import opened Rejection
  import opened WorkerRounds

  /** Every job in the queue carries its own, already assigned sequence number. */
  ghost predicate FreshSeqNos(queue: seq<Job>, nextSeq: nat) {
    DistinctSeqNos(queue) && forall j :: j in queue ==> j.seqNo < nextSeq
  }

  /** Everything already popped goes ahead of everything still queued. */
  ghost predicate AllAhead(popped: seq<Job>, queue: seq<Job>) {
    forall x, y :: x in popped && y in queue ==> !PopsBefore()(y, x)
  }

  lemma PopTop(popped: seq<Job>, queue: seq<Job>, k: nat)
    requires k < |queue| && SortedBy(popped, PopsBefore()) && AllAhead(popped, queue)
    requires forall i :: 0 <= i < |queue| ==> !PopsBefore()(queue[i], queue[k])
    ensures
      var rest := queue[..k] + queue[k + 1..];
      && multiset(popped + [queue[k]]) + multiset(rest) == multiset(popped) + multiset(queue)
      && SortedBy(popped + [queue[k]], PopsBefore())
      && AllAhead(popped + [queue[k]], rest)
  {
    var rest, x := queue[..k] + queue[k + 1..], queue[k];
    RemoveFromMultiset(queue, k);
    assert x in multiset(queue);
    forall a, y | a in popped + [x] && y in rest ensures !PopsBefore()(y, a) {
      assert y in queue;
    }
    hide PopsBefore;
    var p := popped + [x];
    forall i, j | 0 <= i < j < |p| ensures !PopsBefore()(p[j], p[i]) {
      if j == |popped| {
        assert p[i] in popped;
      }
    }
  }

  /** `n` consecutive dispatcher steps with monitor reading `free`. */
  function DispIterate(cfg: Config, s: State, free: size_t, n: nat): State {
    if n == 0 then s else DispApply(cfg, DispIterate(cfg, s, free, n - 1), free)
  }

  predicate AtTop(d: DPc) {
    d.WaitSpace? || d.DExited?
  }

  /** The first `n` steps do not reach the top of the dispatcher loop again. */
  ghost predicate WithinRound(cfg: Config, s: State, free: size_t, n: nat) {
    forall k :: 0 < k <= n ==> !AtTop(DispIterate(cfg, s, free, k).disp)
  }

  class BatchScheduler {
    const cfg: Config
    var queue: seq<Job>
    var nextSeq: nat
    var batchQueue: seq<seq<Job>>
    var reserved: size_t
    var metrics: seq<Row>
    var submitted: nat
    var completed: nat
    var started: bool
    var shutdown: bool

    /** The object's fields as the shared state of the protocol. */
    function View(): Shared
      reads this
    {
      Shared(queue, nextSeq, batchQueue, reserved, metrics, submitted, completed, started, shutdown)
    }

    ghost predicate Valid()
      reads this
    {
      FreshSeqNos(queue, nextSeq)
    }

    constructor (cfg: Config)
      ensures Valid() && this.cfg == cfg
      ensures View() == Shared([], 0, [], 0, [], 0, 0, false, false)
    {
      this.cfg := cfg;
      queue, nextSeq, batchQueue, reserved, metrics := [], 0, [], 0, [];
      submitted, completed, started, shutdown := 0, 0, false, false;
    }

    method Submit(job: Job, now: int) returns (seqNo: nat)
      requires Valid()
      modifies this
      ensures Valid()
      ensures seqNo == old(nextSeq)
      ensures View() == old(View()).(queue := old(queue) + [job.(submitTime := now, seqNo := old(nextSeq))],
                                     nextSeq := old(nextSeq) + 1, submitted := old(submitted) + 1)
    {
      var stamped := job.(submitTime := now);
      seqNo := nextSeq;
      stamped := stamped.(seqNo := seqNo);
      nextSeq := nextSeq + 1;
      queue := queue + [stamped];
      submitted := submitted + 1;
    }

    /** Index of the job on top of the priority queue. */
    method Top() returns (best: nat)
      requires queue != []
      ensures best < |queue|
      ensures forall i :: 0 <= i < |queue| ==> !PopsBefore()(queue[i], queue[best])
    {
      PopOrderIsStrictTotal(queue);
      best := 0;
      for i := 1 to |queue|
        invariant best < |queue|
        invariant forall k :: 0 <= k < i ==> !PopsBefore()(queue[k], queue[best])
      {
        if PopsBefore()(queue[i], queue[best]) {
          best := i;
        }
      }
    }

    /** The dispatcher's drain loop delivers the whole queue in pop order. */
    method DrainQueue() returns (candidates: seq<Job>)
      requires Valid()
      modifies this`queue
      ensures candidates == DrainOrder(old(queue))
      ensures queue == []
    {
      candidates := [];
      while queue != []
        invariant multiset(candidates) + multiset(queue) == multiset(old(queue))
        invariant SortedBy(candidates, PopsBefore())
        invariant AllAhead(candidates, queue)
        decreases |queue|
      {
        var k := Top();
        PopTop(candidates, queue, k);
        candidates := candidates + [queue[k]];
        queue := queue[..k] + queue[k + 1..];
      }
      DrainedInOrder(candidates, old(queue));
    }

    method MaxJob() returns (bytes: size_t)
      ensures bytes == MaxJobBytes(cfg) == if cfg.totalMem > cfg.margin then cfg.totalMem - cfg.margin else 0
    {
      if cfg.totalMem == 0 {
        return 0;
      }
      bytes := if cfg.totalMem > cfg.margin then cfg.totalMem - cfg.margin else 0;
    }

    /** The erase loop that splits off candidates no budget of this device can ever cover. */
    method SplitOversized(candidates: seq<Job>, maxJob: size_t) returns (oversized: seq<Job>, fitting: seq<Job>)
      ensures oversized == Oversized(candidates, maxJob) && fitting == Fitting(candidates, maxJob)
      ensures Picks(oversized, candidates, Above(maxJob)) && Picks(fitting, candidates, UpTo(maxJob))
    {
      hide BytesRequired;
      hide Picks;
      SplitPicks(candidates, maxJob, Above(maxJob), UpTo(maxJob));
      oversized, fitting := [], candidates;
      var i := 0;
      ghost var seen := 0;
      while i < |fitting|
        invariant seen <= |candidates| && i <= |fitting|
        invariant fitting[i..] == candidates[seen..]
        invariant fitting[..i] == Fitting(candidates[..seen], maxJob)
        invariant oversized == Oversized(candidates[..seen], maxJob)
        decreases |fitting| - i
      {
        assert fitting[i..][0] == candidates[seen..][0];
        assert candidates[..seen + 1][..seen] == candidates[..seen];
        if BytesRequired(fitting[i]) > maxJob {
          oversized := oversized + [fitting[i]];
          assert (fitting[..i] + fitting[i + 1..])[i..] == fitting[i..][1..];
          assert (fitting[..i] + fitting[i + 1..])[..i] == fitting[..i];
          fitting := fitting[..i] + fitting[i + 1..];
        } else {
          assert fitting[..i + 1] == fitting[..i] + [fitting[i]];
          assert fitting[i + 1..] == fitting[i..][1..];
          i := i + 1;
        }
        assert candidates[seen + 1..] == candidates[seen..][1..];
        seen := seen + 1;
      }
      assert candidates[..seen] == candidates;
      assert fitting[..i] == fitting;
    }

    method FailBatch(batch: seq<Job>)
      modifies this`metrics, this`completed
      ensures metrics == old(metrics) + RowsOf(batch, false)
      ensures Reported(old(metrics), metrics, batch, false)
      ensures completed == old(completed) + |batch|
    {
      RecordRows(batch, false);
      completed := completed + |batch|;
    }

    /** One metrics row per job, appended in batch order. */
    method RecordRows(batch: seq<Job>, ok: bool)
      modifies this`metrics
      ensures metrics == old(metrics) + RowsOf(batch, ok)
      ensures Reported(old(metrics), metrics, batch, ok)
    {
      AppendReports(metrics, batch, ok);
      for i := 0 to |batch|
        invariant metrics == old(metrics) + RowsOf(batch[..i], ok)
      {
        assert batch[..i + 1][..i] == batch[..i];
        metrics := metrics + [RowOf(batch[i], ok)];
      }
      assert batch[..|batch|] == batch;
    }

    method SumBytes(batch: seq<Job>) returns (bytes: size_t)
      ensures bytes == BatchBytes(batch) == ToSize(Total(batch, JobBytes()))
    {
      bytes := 0;
      for i := 0 to |batch|
        invariant bytes == BatchBytes(batch[..i])
      {
        bytes := AddBytes(bytes, batch, i);
      }
      assert batch[..|batch|] == batch;
    }

    method AddBytes(bytes: size_t, batch: seq<Job>, i: nat) returns (sum: size_t)
      requires i < |batch| && bytes == BatchBytes(batch[..i])
      ensures sum == BatchBytes(batch[..i + 1])
    {
      hide BytesRequired;
      assert batch[..i + 1] == batch[..i] + [batch[i]];
      TotalSnoc(batch[..i], batch[i], JobBytes());
      WrapAdd(Total(batch[..i], JobBytes()), BytesRequired(batch[i]));
      sum := ToSize(bytes + BytesRequired(batch[i]));
    }

    method ReserveBytes(bytes: size_t)
      modifies this`reserved
      ensures reserved == Reserve(old(reserved), bytes) == ToSize(old(reserved) + bytes)
    {
      reserved := ToSize(reserved + bytes);
    }

    method ReleaseBytes(bytes: size_t)
      modifies this`reserved
      ensures reserved == Release(old(reserved), bytes) == if bytes > old(reserved) then 0 else old(reserved) - bytes
    {
      reserved := if bytes > reserved then 0 else reserved - bytes;
    }

    /** The fixed budget, or what the monitor's reading leaves beyond the margin, less what is reserved. */
    method BudgetBytes(free: size_t) returns (budget: size_t)
      ensures
        var base := if cfg.fixedBudget > 0 then cfg.fixedBudget else if free > cfg.margin then free - cfg.margin else 0;
        budget == if base > reserved then base - reserved else 0
    {
      var base: size_t;
      if cfg.fixedBudget > 0 {
        base := cfg.fixedBudget;
      } else {
        if free <= cfg.margin {
          return 0;
        }
        base := free - cfg.margin;
      }
      budget := if base > reserved then base - reserved else 0;
    }

    method Requeue(remaining: seq<Job>)
      modifies this`queue
      ensures queue == old(queue) + remaining
    {
      for i := 0 to |remaining|
        invariant queue == old(queue) + remaining[..i]
      {
        queue := queue + [remaining[i]];
      }
    }

    /** Reject candidates that can never fit, or everything when there is no GPU. */
    method TriageCandidates(candidates: seq<Job>, free: size_t, ghost s: State, ghost n: nat)
      returns (kept: seq<Job>, ghost failed: seq<Job>, ghost steps: nat)
      requires Valid() && FreshSeqNos(candidates, nextSeq) && free < SIZE_HALF
      requires DispIterate(cfg, s, free, n) == s.(sh := View(), disp := Triage(candidates))
               && WithinRound(cfg, s, free, n)
      modifies this`metrics, this`completed
      ensures DispIterate(cfg, s, free, steps)
              == s.(sh := View(), disp := if cfg.gpuAbsent then WaitSpace else Sampling(kept))
      ensures if cfg.gpuAbsent then steps > 0 && WithinRound(cfg, s, free, steps - 1)
              else WithinRound(cfg, s, free, steps)
      ensures Valid() && FreshSeqNos(kept, nextSeq)
      ensures Triaged(cfg, candidates, kept, failed) && (cfg.gpuAbsent ==> kept == [])
      ensures Reported(old(metrics), metrics, failed, false) && completed == old(completed) + |failed|
    {
      hide BytesRequired;
      hide Oversized;
      hide Fitting;
      hide RowsOf;
      hide Reported;
      hide Triaged;
      TriageOutcome(cfg, candidates);
      NothingReported(metrics);
      hide DispIterate;
      hide WithinRound;
      ghost var t := DispIterate(cfg, s, free, n);
      kept, failed := candidates, [];
      t, steps := Advance(cfg, s, t, free, n);
      if cfg.gpuAbsent {
        kept, failed := [], candidates;
        FailBatch(candidates);
        t, steps := Advance(cfg, s, t, free, steps);
        t, steps := Advance(cfg, s, t, free, steps);
        return;
      }
      var maxJob := MaxJob();
      if maxJob > 0 {
        var oversized, fitting := SplitOversized(candidates, maxJob);
        FittingIsFresh(candidates, maxJob, nextSeq);
        kept := fitting;
        if oversized != [] {
          failed := oversized;
          FailBatch(oversized);
          t, steps := Advance(cfg, s, t, free, steps);
          t, steps := Advance(cfg, s, t, free, steps);
        } else {
          NothingOversized(candidates, maxJob);
        }
      }
    }

    /** Read the budget, then pack. */
    method BudgetAndPack(kept: seq<Job>, now: int, free: size_t, ghost s: State, ghost n: nat)
      returns (selected: seq<Job>, remaining: seq<Job>, ghost budget: size_t, ghost steps: nat)
      requires s.clock == now && free < SIZE_HALF
      requires DispIterate(cfg, s, free, n) == s.(sh := View(), disp := Sampling(kept)) && WithinRound(cfg, s, free, n)
      ensures DispIterate(cfg, s, free, steps) == s.(sh := View(), disp := Requeueing(selected, remaining))
      ensures WithinRound(cfg, s, free, steps)
      ensures multiset(selected) + multiset(remaining) == multiset(kept)
      ensures
        var base := if cfg.fixedBudget > 0 then cfg.fixedBudget else if free > cfg.margin then free - cfg.margin else 0;
        budget == if base > reserved then base - reserved else 0
      ensures selected == Pack(kept, budget, cfg.maxBatch, now).selected
    {
      hide BytesRequired;
      hide AgeBucket;
      hide Pack;
      hide DispIterate;
      hide WithinRound;
      hide Total;
      ghost var t := DispIterate(cfg, s, free, n);
      var bytes := BudgetBytes(free);
      budget := bytes;
      t, steps := Advance(cfg, s, t, free, n);
      if cfg.fixedBudget > 0 || free > cfg.margin {
        t, steps := Advance(cfg, s, t, free, steps);
      }
      var any;
      any, selected, remaining := PackJobs(kept, bytes, cfg.maxBatch, now);
      t, steps := Advance(cfg, s, t, free, steps);
    }

    /** Requeue what is left over and push the batch against its reservation. */
    method RequeueAndPush(selected: seq<Job>, remaining: seq<Job>, free: size_t, ghost s: State, ghost n: nat)
      returns (ghost steps: nat)
      requires free < SIZE_HALF && DispIterate(cfg, s, free, n)
               == s.(sh := View(), disp := Requeueing(selected, remaining))
      requires WithinRound(cfg, s, free, n)
      modifies this`queue, this`batchQueue, this`reserved
      ensures queue == old(queue) + remaining
      ensures batchQueue == if selected == [] then old(batchQueue) else old(batchQueue) + [selected]
      ensures reserved == ToSize(old(reserved) + ToSize(Total(selected, JobBytes())))
      ensures DispIterate(cfg, s, free, steps) == s.(sh := View(), disp := WaitSpace)
      ensures steps > 0 && WithinRound(cfg, s, free, steps - 1)
    {
      hide BytesRequired;
      hide BatchBytes;
      hide DispIterate;
      hide WithinRound;
      ghost var t := DispIterate(cfg, s, free, n);
      Requeue(remaining);
      t, steps := Advance(cfg, s, t, free, n);
      if selected != [] {
        var bytes := SumBytes(selected);
        ReserveBytes(bytes);
        batchQueue := batchQueue + [selected];
        t, steps := Advance(cfg, s, t, free, steps);
        t, steps := Advance(cfg, s, t, free, steps);
      }
    }

    /** The first half of a round: drain the queue and reject what can never fit. */
    method DrainAndTriage(free: size_t, ghost s: State, ghost n: nat)
      returns (kept: seq<Job>, ghost candidates: seq<Job>, ghost failed: seq<Job>, ghost steps: nat)
      requires Valid() && !shutdown && queue != [] && free < SIZE_HALF
      requires DispIterate(cfg, s, free, n) == s.(sh := View(), disp := WaitQueue) && WithinRound(cfg, s, free, n)
      modifies this`queue, this`metrics, this`completed
      ensures DispIterate(cfg, s, free, steps)
              == s.(sh := View(), disp := if cfg.gpuAbsent then WaitSpace else Sampling(kept))
      ensures if cfg.gpuAbsent then steps > 0 && WithinRound(cfg, s, free, steps - 1)
              else WithinRound(cfg, s, free, steps)
      ensures Valid() && queue == [] && FreshSeqNos(kept, nextSeq)
      ensures multiset(candidates) == multiset(old(queue))
      ensures Triaged(cfg, candidates, kept, failed) && (cfg.gpuAbsent ==> kept == [])
      ensures Reported(old(metrics), metrics, failed, false) && completed == old(completed) + |failed|
    {
      hide BytesRequired;
      hide Triaged;
      hide Reported;
      hide DispIterate;
      hide WithinRound;
      DrainIsFresh(queue, nextSeq);
      DrainIsPriorityThenFifo(queue);
      hide DrainOrder;
      ghost var t := DispIterate(cfg, s, free, n);
      var drained := DrainQueue();
      candidates := drained;
      t, steps := Advance(cfg, s, t, free, n);
      kept, failed, steps := TriageCandidates(drained, free, s, steps);
    }

    /** The second half of a round: pack what triage kept, queue the rest again and push the batch. */
    method PackAndPush(kept: seq<Job>, now: int, free: size_t, ghost s: State, ghost n: nat)
      returns (ghost selected: seq<Job>, ghost steps: nat)
      requires Valid() && queue == [] && FreshSeqNos(kept, nextSeq) && s.clock == now && free < SIZE_HALF
      requires DispIterate(cfg, s, free, n) == s.(sh := View(), disp := Sampling(kept)) && WithinRound(cfg, s, free, n)
      modifies this`queue, this`batchQueue, this`reserved
      ensures DispIterate(cfg, s, free, steps) == s.(sh := View(), disp := WaitSpace)
      ensures steps > 0 && WithinRound(cfg, s, free, steps - 1)
      ensures Valid() && multiset(selected) + multiset(queue) == multiset(kept)
      ensures batchQueue == if selected == [] then old(batchQueue) else old(batchQueue) + [selected]
      ensures reserved == ToSize(old(reserved) + ToSize(Total(selected, JobBytes())))
      ensures
        var base := if cfg.fixedBudget > 0 then cfg.fixedBudget else if free > cfg.margin then free - cfg.margin else 0;
        var budget := if base > old(reserved) then base - old(reserved) else 0;
        selected == Pack(kept, budget, cfg.maxBatch, now).selected
    {
      hide BytesRequired;
      hide Pack;
      hide Total;
      hide DispIterate;
      hide WithinRound;
      var batch, remaining;
      ghost var budget;
      batch, remaining, budget, steps := BudgetAndPack(kept, now, free, s, n);
      selected := batch;
      RemainingIsFresh(kept, batch, remaining, nextSeq);
      steps := RequeueAndPush(batch, remaining, free, s, steps);
      assert queue == remaining;
    }

    /** One iteration of the dispatcher loop with nobody else running. Whatever branch it takes, it
        ends in the state in which the protocol's dispatcher steps first reach the top of the loop
        again, or leave it. With a GPU the queued jobs that are too large for the device are recorded as
        failed, a batch is packed from the others within what is left of the budget, and the rest is
        queued again. */
    method DispatcherRound(now: int, free: size_t, ghost s: State)
      returns (exited: bool, ghost candidates: seq<Job>, ghost kept: seq<Job>, ghost failed: seq<Job>,
               ghost selected: seq<Job>, ghost steps: nat)
      requires Valid() && s.sh == View() && s.clock == now && s.disp == WaitSpace && free < SIZE_HALF
      requires shutdown || (|batchQueue| < MaxQueueDepth(cfg) && queue != [])
      modifies this
      ensures DispIterate(cfg, s, free, steps) == s.(sh := View(), disp := if exited then DExited else WaitSpace)
      ensures steps > 0 && WithinRound(cfg, s, free, steps - 1)
      ensures exited <==> old(shutdown)
      ensures Valid()
      ensures exited ==> View() == old(View())
      ensures !exited ==> multiset(candidates) == multiset(old(queue))
      ensures !exited ==> Triaged(cfg, candidates, kept, failed)
      ensures !exited ==> Reported(old(metrics), metrics, failed, false) && completed == old(completed) + |failed|
      ensures !exited ==> multiset(selected) + multiset(queue) == multiset(kept)
      ensures !exited ==> batchQueue == if selected == [] then old(batchQueue) else old(batchQueue) + [selected]
      ensures !exited ==> reserved == ToSize(old(reserved) + ToSize(Total(selected, JobBytes())))
      ensures !exited && !cfg.gpuAbsent ==>
        var base := if cfg.fixedBudget > 0 then cfg.fixedBudget else if free > cfg.margin then free - cfg.margin else 0;
        var budget := if base > old(reserved) then base - old(reserved) else 0;
        selected == Pack(kept, budget, cfg.maxBatch, now).selected
    {
      hide BytesRequired;
      hide Triaged;
      hide Reported;
      hide Pack;
      hide Total;
      hide FreshSeqNos;
      hide DispIterate;
      hide WithinRound;
      candidates, kept, failed, selected := [], [], [], [];
      RoundBegins(cfg, s, free);
      exited, steps := shutdown, 1;
      if shutdown {
        return;
      }
      var fitting;
      fitting, candidates, failed, steps := DrainAndTriage(free, s, steps);
      kept := fitting;
      NothingToAdd(reserved);
      hide ToSize;
      if cfg.gpuAbsent {
        return;
      }
      selected, steps := PackAndPush(fitting, now, free, s, steps);
    }

    /** A worker's handling of the front batch, from popping it to giving its reservation back, with
        nobody else running; `ok` tells whether the batch ran. It ends in a state in which the
        protocol's steps of worker `w` first lead back to waiting, and `WorkerRoundsEnd` says that
        with the two outcomes these are all such states. */
    method WorkerRound(ok: bool, ghost s: State, ghost w: nat) returns (batch: seq<Job>, ghost acts: seq<WAct>)
      requires batchQueue != []
      requires w < |s.workers| && s.workers[w].WWait? && s.sh == View()
      modifies this
      ensures acts != [] && WorkPath(cfg, s, w, acts) && WorkIterate(cfg, s, w, acts) == s.(sh := View())
      ensures batch == old(batchQueue)[0]
      ensures View() == old(View()).(batchQueue := old(batchQueue)[1..],
                                     metrics := old(metrics) + RowsOf(batch, ok && !cfg.gpuAbsent),
                                     completed := old(completed) + |batch|,
                                     reserved := Release(old(reserved), BatchBytes(batch)))
      ensures Reported(old(metrics), metrics, batch, ok && !cfg.gpuAbsent)
      ensures
        var bytes := ToSize(Total(batch, JobBytes()));
        reserved == if bytes > old(reserved) then 0 else old(reserved) - bytes
    {
      hide BytesRequired;
      hide RowsOf;
      hide BatchBytes;
      hide WorkPath;
      hide WorkIterate;
      acts := WorkerRoundExists(cfg, s, w, ok && !cfg.gpuAbsent);
      batch := batchQueue[0];
      batchQueue := batchQueue[1..];
      var bytes := SumBytes(batch);
      if cfg.gpuAbsent {
        FailBatch(batch);
        ReleaseBytes(bytes);
        return;
      }
      if ok {
        RecordRows(batch, true);
        completed := completed + |batch|;
      } else {
        FailBatch(batch);
      }
      ReleaseBytes(bytes);
    }
  }

  // ----- lemmas behind the methods

  /** The shutdown test at the top of the loop. */
  lemma RoundBegins(cfg: Config, s: State, free: size_t)
    requires s.disp == WaitSpace
    ensures DispIterate(cfg, s, free, 1) == s.(disp := if s.sh.shutdown then DExited else WaitQueue)
    ensures WithinRound(cfg, s, free, 0) && (!s.sh.shutdown ==> WithinRound(cfg, s, free, 1))
  {
    assert DispIterate(cfg, s, free, 0) == s;
  }

  lemma NothingReported(metrics: seq<Row>)
    ensures Reported(metrics, metrics, [], false)
  {
  }

  lemma NothingToAdd(reserved: size_t)
    ensures ToSize(reserved + ToSize(Total<Job>([], JobBytes()))) == reserved
  {
  }

  lemma DrainedInOrder(candidates: seq<Job>, queue: seq<Job>)
    requires DistinctSeqNos(queue) && multiset(candidates) == multiset(queue) && SortedBy(candidates, PopsBefore())
    ensures candidates == DrainOrder(queue)
  {
    PopOrderIsStrictTotal(queue);
    SortPermutes(queue, PopsBefore());
    SortSorts(queue, PopsBefore());
    MembersSurvive(candidates, queue);
    SortedUnique(candidates, DrainOrder(queue), PopsBefore());
  }

  lemma {:induction false} NothingOversized(c: seq<Job>, maxJob: size_t)
    requires Oversized(c, maxJob) == []
    ensures Fitting(c, maxJob) == c
  {
    hide BytesRequired;
    if c != [] {
      NothingOversized(c[..|c| - 1], maxJob);
    }
  }

  lemma {:induction false} FittingMembers(c: seq<Job>, maxJob: size_t)
    ensures forall j :: j in Fitting(c, maxJob) ==> j in c
  {
    hide BytesRequired;
    if c != [] {
      FittingMembers(c[..|c| - 1], maxJob);
    }
  }

  lemma DrainIsFresh(queue: seq<Job>, nextSeq: nat)
    requires FreshSeqNos(queue, nextSeq)
    ensures FreshSeqNos(DrainOrder(queue), nextSeq)
  {
    SortPermutes(queue, PopsBefore());
    MembersSurvive(DrainOrder(queue), queue);
  }

  lemma FittingIsFresh(candidates: seq<Job>, maxJob: size_t, nextSeq: nat)
    requires FreshSeqNos(candidates, nextSeq)
    ensures FreshSeqNos(Fitting(candidates, maxJob), nextSeq)
  {
    FittingMembers(candidates, maxJob);
  }

  lemma RemainingIsFresh(kept: seq<Job>, selected: seq<Job>, remaining: seq<Job>, nextSeq: nat)
    requires FreshSeqNos(kept, nextSeq) && multiset(selected) + multiset(remaining) == multiset(kept)
    ensures FreshSeqNos(remaining, nextSeq)
  {
    forall j | j in remaining ensures j in kept {
      assert j in multiset(remaining);
      assert j in multiset(kept);
    }
  }

  /** One more dispatcher step. */
  ghost method Advance(cfg: Config, s: State, t: State, free: size_t, n: nat) returns (t': State, n': nat)
    requires t == DispIterate(cfg, s, free, n) && WithinRound(cfg, s, free, n)
    ensures t' == DispApply(cfg, t, free) == DispIterate(cfg, s, free, n')
    ensures n' == n + 1 && WithinRound(cfg, s, free, n' - 1)
    ensures !AtTop(t'.disp) ==> WithinRound(cfg, s, free, n')
  {
    n' := n + 1;
    t' := DispApply(cfg, t, free);
  }
}
