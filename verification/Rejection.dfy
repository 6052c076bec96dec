/** The dispatcher's triage: with a GPU exactly the jobs that no budget of the device can ever cover are
    rejected, and they never get any further. */
module Rejection {
  import opened Jobs
  import opened Packing
  import opened Protocol
  import opened Conservation
  import opened Ledger

  // ----- what triage does

  /** The device's size is known and no budget within it and the margin covers the job. */
  function TooLarge(cfg: Config): Job -> bool {
    (j: Job) => cfg.totalMem > cfg.margin && BytesRequired(j) > cfg.totalMem - cfg.margin
  }

  function FitsDevice(cfg: Config): Job -> bool {
    (j: Job) => !TooLarge(cfg)(j)
  }

  /** `part` is what remains of `whole`, in the same order, when the jobs that `which` does not hold of
      are left out. */
  ghost predicate Picks(part: seq<Job>, whole: seq<Job>, which: Job -> bool) {
    exists at: seq<nat> :: PicksAt(part, whole, which, at)
  }

  /** Place i of `part` is place at[i] of `whole`. */
  ghost predicate PicksAt(part: seq<Job>, whole: seq<Job>, which: Job -> bool, at: seq<nat>) {
    && |at| == |part|
    && (forall i :: 0 <= i < |at| ==> at[i] < |whole| && part[i] == whole[at[i]])
    && (forall i, k :: 0 <= i < k < |at| ==> at[i] < at[k])
    && (forall k: nat :: k < |whole| ==> (which(whole[k]) <==> k in at))
  }

  lemma PicksSnoc(part: seq<Job>, whole: seq<Job>, which: Job -> bool, x: Job)
    requires Picks(part, whole, which)
    ensures Picks(if which(x) then part + [x] else part, whole + [x], which)
  {
    var at: seq<nat> :| PicksAt(part, whole, which, at);
    if which(x) {
      PicksTaken(part, whole, which, x, at);
    } else {
      PicksLeft(part, whole, which, x, at);
    }
    hide PicksAt;
  }

  lemma PicksTaken(part: seq<Job>, whole: seq<Job>, which: Job -> bool, x: Job, at: seq<nat>)
    requires PicksAt(part, whole, which, at) && which(x)
    ensures PicksAt(part + [x], whole + [x], which, at + [|whole|])
  {
    var at' := at + [|whole|];
    forall k: nat | k < |whole + [x]| ensures which((whole + [x])[k]) <==> k in at' {
      if k == |whole| {
        assert at'[|at|] == k;
      } else {
        assert (whole + [x])[k] == whole[k];
      }
    }
  }

  lemma PicksLeft(part: seq<Job>, whole: seq<Job>, which: Job -> bool, x: Job, at: seq<nat>)
    requires PicksAt(part, whole, which, at) && !which(x)
    ensures PicksAt(part, whole + [x], which, at)
  {
    forall k: nat | k < |whole + [x]| ensures which((whole + [x])[k]) <==> k in at {
      if k < |whole| {
        assert (whole + [x])[k] == whole[k];
      } else {
        assert forall i :: 0 <= i < |at| ==> at[i] != k;
      }
    }
  }

  lemma PicksAll(whole: seq<Job>, which: Job -> bool)
    requires forall j :: j in whole ==> which(j)
    ensures Picks(whole, whole, which)
  {
    var at: seq<nat> := seq(|whole|, i requires 0 <= i => i);
    assert forall k: nat :: k < |whole| ==> at[k] == k;
    assert PicksAt(whole, whole, which, at);
  }

  lemma PicksNone(whole: seq<Job>, which: Job -> bool)
    requires forall j :: j in whole ==> !which(j)
    ensures Picks([], whole, which)
  {
    assert PicksAt([], whole, which, []);
  }

  lemma PicksMembers(part: seq<Job>, whole: seq<Job>, which: Job -> bool)
    requires Picks(part, whole, which)
    ensures forall j :: j in part <==> j in whole && which(j)
  {
    var at: seq<nat> :| PicksAt(part, whole, which, at);
    forall j | j in part ensures j in whole && which(j) {
      var i :| 0 <= i < |part| && part[i] == j;
      assert at[i] in at && whole[at[i]] == j;
    }
    forall j | j in whole && which(j) ensures j in part {
      var k: nat :| k < |whole| && whole[k] == j;
      var i :| 0 <= i < |at| && at[i] == k;
      assert part[i] == j;
    }
    hide PicksAt;
  }

  function Above(bytes: size_t): Job -> bool {
    (j: Job) => BytesRequired(j) > bytes
  }

  function UpTo(bytes: size_t): Job -> bool {
    (j: Job) => BytesRequired(j) <= bytes
  }

  lemma {:induction false} SplitPicks(c: seq<Job>, maxJob: size_t, large: Job -> bool, fits: Job -> bool)
    requires forall j :: (large(j) <==> BytesRequired(j) > maxJob) && (fits(j) <==> !large(j))
    ensures Picks(Oversized(c, maxJob), c, large) && Picks(Fitting(c, maxJob), c, fits)
  {
    hide BytesRequired;
    hide Picks;
    if c == [] {
      PicksNone(c, large);
      PicksNone(c, fits);
    } else {
      var front, x := c[..|c| - 1], c[|c| - 1];
      assert c == front + [x];
      SplitPicks(front, maxJob, large, fits);
      SplitUnfolds(c, maxJob);
      hide Oversized;
      hide Fitting;
      PicksSnoc(Oversized(front, maxJob), front, large, x);
      PicksSnoc(Fitting(front, maxJob), front, fits, x);
    }
  }

  lemma SplitUnfolds(c: seq<Job>, maxJob: size_t)
    requires c != []
    ensures var front, x := c[..|c| - 1], c[|c| - 1];
            if BytesRequired(x) > maxJob
            then Oversized(c, maxJob) == Oversized(front, maxJob) + [x] && Fitting(c, maxJob) == Fitting(front, maxJob)
            else Oversized(c, maxJob) == Oversized(front, maxJob) && Fitting(c, maxJob) == Fitting(front, maxJob) + [x]
  {
    hide BytesRequired;
    var front := c[..|c| - 1];
    assert Oversized(front, maxJob) + [] == Oversized(front, maxJob);
    assert Fitting(front, maxJob) + [] == Fitting(front, maxJob);
  }

  lemma CandidatesSplit(cfg: Config, c: seq<Job>)
    requires MaxJobBytes(cfg) > 0
    ensures Picks(Oversized(c, MaxJobBytes(cfg)), c, TooLarge(cfg))
    ensures Picks(Fitting(c, MaxJobBytes(cfg)), c, FitsDevice(cfg))
  {
    hide BytesRequired;
    hide Picks;
    hide Oversized;
    hide Fitting;
    SplitPicks(c, MaxJobBytes(cfg), TooLarge(cfg), FitsDevice(cfg));
  }

  lemma NothingTooLarge(cfg: Config, c: seq<Job>)
    requires MaxJobBytes(cfg) > 0 ==> Oversized(c, MaxJobBytes(cfg)) == []
    ensures Picks(c, c, FitsDevice(cfg)) && Picks([], c, TooLarge(cfg))
  {
    hide BytesRequired;
    hide Picks;
    hide Oversized;
    hide Fitting;
    if MaxJobBytes(cfg) > 0 {
      CandidatesSplit(cfg, c);
      PicksMembers([], c, TooLarge(cfg));
    }
    assert forall j :: j in c ==> !TooLarge(cfg)(j);
    PicksAll(c, FitsDevice(cfg));
    PicksNone(c, TooLarge(cfg));
  }

  /** With a GPU the failed candidates are exactly those too large for the device and the kept ones all
      others, each in their order; without one all are failed. */
  ghost predicate Triaged(cfg: Config, candidates: seq<Job>, kept: seq<Job>, failed: seq<Job>) {
    if cfg.gpuAbsent then kept == [] && failed == candidates
    else Picks(failed, candidates, TooLarge(cfg)) && Picks(kept, candidates, FitsDevice(cfg))
  }

  /** What the dispatcher fails, and what it goes on with, after triage. */
  function Rejects(d: DPc): seq<Job> {
    if d.Failing? then d.failed else []
  }

  function Keeps(d: DPc): seq<Job> {
    match d
    case Failing(_, after) => KeptBy(after)
    case Sampling(c) => c
    case _ => []
  }

  lemma TriageOutcome(cfg: Config, c: seq<Job>)
    ensures cfg.gpuAbsent ==> Triaged(cfg, c, [], c)
    ensures
      var big, fitting := Oversized(c, MaxJobBytes(cfg)), Fitting(c, MaxJobBytes(cfg));
      !cfg.gpuAbsent ==>
        if MaxJobBytes(cfg) > 0 && big != [] then Triaged(cfg, c, fitting, big) else Triaged(cfg, c, c, [])
  {
    hide BytesRequired;
    hide Picks;
    hide Oversized;
    hide Fitting;
    if MaxJobBytes(cfg) > 0 && Oversized(c, MaxJobBytes(cfg)) != [] {
      CandidatesSplit(cfg, c);
    } else {
      NothingTooLarge(cfg, c);
    }
    hide TooLarge;
    hide FitsDevice;
    hide MaxJobBytes;
  }

  /** With a GPU triage rejects exactly the candidates that are too large for the device, and goes on with
      all others, in their order. Without one it rejects everything. */
  lemma TriageRejectsTooLarge(cfg: Config, s: State, free: size_t)
    requires s.disp.Triage?
    ensures
      var d := DispApply(cfg, s, free).disp;
      (d.Failing? || d.Sampling?) && Triaged(cfg, s.disp.cands, Keeps(d), Rejects(d))
  {
    TriageLeaves(cfg, s, free);
    NextIsTriaged(cfg, s.disp.cands);
    hide *;
  }

  lemma TriageLeaves(cfg: Config, s: State, free: size_t)
    requires s.disp.Triage?
    ensures DispApply(cfg, s, free).disp == TriageNext(cfg, s.disp.cands)
  {
    hide TriageNext;
    hide Pack;
    hide DrainOrder;
    hide RowsOf;
    hide BatchBytes;
    hide SampleNext;
  }

  lemma NextIsTriaged(cfg: Config, c: seq<Job>)
    ensures var d := TriageNext(cfg, c); (d.Failing? || d.Sampling?) && Triaged(cfg, c, Keeps(d), Rejects(d))
  {
    TriageOutcome(cfg, c);
    hide Triaged;
    hide BytesRequired;
    hide Oversized;
    hide Fitting;
    hide MaxJobBytes;
  }

  /** Whenever the dispatcher is about to fail jobs on a host with a GPU, all of them are too large. */
  ghost predicate FailsTooLarge(cfg: Config, d: DPc) {
    d.Failing? && !cfg.gpuAbsent ==>
      && d.after.AfterOversized? && cfg.totalMem > cfg.margin
      && forall j :: j in d.failed ==> BytesRequired(j) > cfg.totalMem - cfg.margin
  }

  lemma {:induction false} OnlyTooLargeAreRejected(cfg: Config, states: seq<State>, actions: seq<Action>)
    requires IsRun(cfg, states, actions)
    ensures FailsTooLarge(cfg, Last(states).disp)
    decreases |actions|
  {
    hide Step;
    hide FailsTooLarge;
    if actions == [] {
      FailsNothing(cfg, states[0]);
    } else {
      RunPrefix(cfg, states, actions);
      var prefix := states[..|states| - 1];
      OnlyTooLargeAreRejected(cfg, prefix, actions[..|actions| - 1]);
      TooLargeStep(cfg, Last(prefix), actions[|actions| - 1], Last(states));
    }
  }

  lemma FailsNothing(cfg: Config, s: State)
    requires !s.disp.Failing?
    ensures FailsTooLarge(cfg, s.disp)
  {
  }

  lemma TooLargeStep(cfg: Config, s: State, a: Action, s': State)
    requires Step(cfg, s, a, s') && FailsTooLarge(cfg, s.disp)
    ensures FailsTooLarge(cfg, s'.disp)
  {
    hide WorkerShared;
    hide WorkerNext;
    hide DispApply;
    hide FailsTooLarge;
    if a.Disp? {
      FailsAfterTriage(cfg, s, a.free);
      if s'.disp.Failing? {
        TriageLeaves(cfg, s, a.free);
        TriageFailsTooLarge(cfg, s.disp.cands);
      } else {
        FailsNothing(cfg, s');
      }
    } else if a.Start? {
      FailsNothing(cfg, s');
    }
  }

  lemma FailsAfterTriage(cfg: Config, s: State, free: size_t)
    ensures DispApply(cfg, s, free).disp.Failing? ==> s.disp.Triage?
  {
    hide TriageNext;
    hide Pack;
    hide DrainOrder;
    hide RowsOf;
    hide BatchBytes;
  }

  lemma TriageFailsTooLarge(cfg: Config, c: seq<Job>)
    ensures FailsTooLarge(cfg, TriageNext(cfg, c))
  {
    hide BytesRequired;
    NextIsTriaged(cfg, c);
    hide Picks;
    hide Oversized;
    hide Fitting;
    if TriageNext(cfg, c).Failing? && !cfg.gpuAbsent {
      PicksMembers(TriageNext(cfg, c).failed, c, TooLarge(cfg));
    }
  }

  // ----- what gets past it

  /** Every job of the list fits the device, if its size is known. */
  ghost predicate AllFit(cfg: Config, c: seq<Job>) {
    cfg.totalMem > cfg.margin ==> forall j :: j in c ==> BytesRequired(j) <= cfg.totalMem - cfg.margin
  }

  /** What the dispatcher holds after triage. */
  function PastTriage(d: DPc): seq<Job> {
    match d
    case Failing(_, after) => KeptBy(after)
    case FailBump(_, after) => KeptBy(after)
    case Sampling(c) => c
    case ReadLedger(c, _) => c
    case Packing(c, _) => c
    case Requeueing(sel, rem) => sel + rem
    case Reserving(sel) => sel
    case Pushing(sel) => sel
    case _ => []
  }

  ghost predicate OnlyFitting(cfg: Config, s: State) {
    && AllFit(cfg, PastTriage(s.disp))
    && (forall k :: 0 <= k < |s.sh.batchQueue| ==> AllFit(cfg, s.sh.batchQueue[k]))
    && (forall i :: 0 <= i < |s.workers| ==> AllFit(cfg, Reserved(s.workers[i])))
  }

  lemma TriageKeepsFitting(cfg: Config, c: seq<Job>)
    ensures AllFit(cfg, Fitting(c, MaxJobBytes(cfg)))
    ensures Oversized(c, MaxJobBytes(cfg)) == [] ==> AllFit(cfg, c)
  {
    hide BytesRequired;
    hide Picks;
    hide Oversized;
    hide Fitting;
    if MaxJobBytes(cfg) > 0 {
      CandidatesSplit(cfg, c);
      PicksMembers(Fitting(c, MaxJobBytes(cfg)), c, FitsDevice(cfg));
      PicksMembers(Oversized(c, MaxJobBytes(cfg)), c, TooLarge(cfg));
      assert forall j :: TooLarge(cfg)(j) <==> !FitsDevice(cfg)(j);
    }
  }

  lemma PackKeepsFitting(cfg: Config, c: seq<Job>, budget: size_t, maxBatch: int32, now: int)
    requires AllFit(cfg, c)
    ensures AllFit(cfg, Pack(c, budget, maxBatch, now).selected + Pack(c, budget, maxBatch, now).remaining)
  {
    hide BytesRequired;
    hide Pack;
    hide MaxJobBytes;
    PackPartitions(c, budget, maxBatch, now);
    var p := Pack(c, budget, maxBatch, now);
    MembersSurvive(p.selected + p.remaining, c);
  }

  lemma DispatcherFits(cfg: Config, s: State, free: size_t)
    requires DispEnabled(cfg, s, free) && OnlyFitting(cfg, s)
    ensures OnlyFitting(cfg, DispApply(cfg, s, free))
  {
    hide BytesRequired;
    hide Pack;
    hide DrainOrder;
    hide Oversized;
    hide Fitting;
    match s.disp
    case Triage(c) => TriageKeepsFitting(cfg, c);
    case Packing(c, budget) => PackKeepsFitting(cfg, c, budget, cfg.maxBatch, s.clock);
    case _ =>
  }

  lemma WorkerFits(cfg: Config, s: State, i: nat, act: WAct)
    requires WorkEnabled(s, i, act) && OnlyFitting(cfg, s)
    ensures OnlyFitting(cfg, Apply(cfg, s, Work(i, act)))
  {
    NobodyHoldsEmpty(cfg);
    hide AllFit;
    hide Buffers;
    hide RowsOf;
  }

  /** Everything past triage fits: whatever is packed, queued as a batch or executed, in every
      reachable state, needs no more than the device can serve. */
  lemma {:induction false} OversizedAreNeverPacked(cfg: Config, states: seq<State>, actions: seq<Action>)
    requires IsRun(cfg, states, actions)
    ensures OnlyFitting(cfg, Last(states))
    decreases |actions|
  {
    hide AllFit;
    hide DispApply;
    hide WorkerNext;
    hide WorkerShared;
    if actions != [] {
      RunPrefix(cfg, states, actions);
      var prefix := states[..|states| - 1];
      OversizedAreNeverPacked(cfg, prefix, actions[..|actions| - 1]);
      match actions[|actions| - 1]
      case Disp(free) => DispatcherFits(cfg, Last(prefix), free);
      case Work(i, act) => WorkerFits(cfg, Last(prefix), i, act);
      case _ => NobodyHoldsEmpty(cfg);
    } else {
      NobodyHoldsEmpty(cfg);
    }
  }

  lemma NobodyHoldsEmpty(cfg: Config)
    ensures AllFit(cfg, [])
  {
  }
}
