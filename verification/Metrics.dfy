/** What the metrics say: every row tells of an accepted job, and tells success exactly where a worker has
    run the job's batch to its end. */
module Metrics {
  import opened Totals
  import opened Jobs
  import opened Protocol
  import opened Conservation
  import opened Ledger
  import opened Rejection

  // ----- rows and jobs

  /** The rows are of the jobs of the batch, one each and in its order, all with outcome `ok`. */
  predicate Reports(rows: seq<Row>, batch: seq<Job>, ok: bool) {
    && |rows| == |batch|
    && forall i :: 0 <= i < |batch| ==>
         && rows[i].jobId == batch[i].id && rows[i].seqNo == batch[i].seqNo && rows[i].priority == batch[i].priority
         && rows[i].ok == ok
  }

  /** `after` is `before` and then a report of the batch. */
  predicate Reported(before: seq<Row>, after: seq<Row>, batch: seq<Job>, ok: bool) {
    |before| <= |after| && after[..|before|] == before && Reports(after[|before|..], batch, ok)
  }

  lemma {:induction false} RowsReport(batch: seq<Job>, ok: bool)
    ensures Reports(RowsOf(batch, ok), batch, ok)
  {
    if batch != [] {
      RowsReport(batch[..|batch| - 1], ok);
    }
  }

  lemma AppendReports(before: seq<Row>, batch: seq<Job>, ok: bool)
    ensures Reported(before, before + RowsOf(batch, ok), batch, ok)
  {
    RowsReport(batch, ok);
    hide RowsOf;
    assert (before + RowsOf(batch, ok))[|before|..] == RowsOf(batch, ok);
  }

  /** The step is the end of a batch that a worker has allocated completely and executed. */
  predicate RunsToItsEnd(s: State, a: Action) {
    && a.Work? && a.act.Go? && a.w < |s.workers| && s.workers[a.w].WRun?
    && s.workers[a.w].next >= |Buffers(s.workers[a.w].batch)|
  }

  /** A step adds a report of the jobs it takes out of flight, with success exactly if it is the end of a
      batch that ran. */
  lemma StepReports(cfg: Config, s: State, a: Action, s': State)
    requires Step(cfg, s, a, s')
    ensures Reported(s.sh.metrics, s'.sh.metrics, Recorded(s, a), RunsToItsEnd(s, a))
  {
    StepMetrics(cfg, s, a, s');
    hide Step;
    AppendReports(s.sh.metrics, Recorded(s, a), RecordedOk(s, a));
    hide RowsOf;
    hide Buffers;
    if RecordedOk(s, a) && !RunsToItsEnd(s, a) {
      assert Recorded(s, a) == [];
    }
  }

  // ----- every row is of an accepted job

  /** The row has id, number and priority of the accepted job of its number. */
  predicate TellsOf(r: Row, accepted: seq<Job>) {
    && r.seqNo < |accepted|
    && r.jobId == accepted[r.seqNo].id && r.seqNo == accepted[r.seqNo].seqNo
    && r.priority == accepted[r.seqNo].priority
  }

  function Untold(accepted: seq<Job>): Row -> nat {
    (r: Row) => if TellsOf(r, accepted) then 0 else 1
  }

  function UntoldJob(accepted: seq<Job>): Job -> nat {
    (j: Job) => Untold(accepted)(RowOf(j, true))
  }

  /** In every reachable state every metrics row has the id, the sequence number and the priority of an
      accepted job. */
  lemma RowsTellOfAcceptedJobs(cfg: Config, states: seq<State>, actions: seq<Action>)
    requires IsRun(cfg, states, actions)
    ensures forall i :: 0 <= i < |Last(states).sh.metrics| ==>
              TellsOf(Last(states).sh.metrics[i], Last(states).accepted)
  {
    hide BytesRequired;
    var s := Last(states);
    RunAccepts(cfg, states, actions);
    RunBooks(cfg, states, actions, UntoldJob(s.accepted), Untold(s.accepted));
    hide IsRun;
    hide Load;
    forall j | j in s.accepted ensures UntoldJob(s.accepted)(j) == 0 {
      var k :| 0 <= k < |s.accepted| && s.accepted[k] == j;
    }
    TotalZero(s.accepted, UntoldJob(s.accepted));
    forall i | 0 <= i < |s.sh.metrics| ensures TellsOf(s.sh.metrics[i], s.accepted) {
      TotalBounds(s.sh.metrics, Untold(s.accepted), i);
    }
  }

  // ----- outcomes over whole runs

  /** Without a GPU nothing runs, and every row tells failure. */
  ghost predicate NothingRuns(s: State) {
    && (forall i :: 0 <= i < |s.workers| ==> !s.workers[i].WRun?)
    && (forall i :: 0 <= i < |s.sh.metrics| ==> !s.sh.metrics[i].ok)
  }

  lemma {:induction false} NoSuccessWithoutGpu(cfg: Config, states: seq<State>, actions: seq<Action>)
    requires IsRun(cfg, states, actions) && cfg.gpuAbsent
    ensures NothingRuns(Last(states))
    decreases |actions|
  {
    hide Step;
    if actions == [] {
    } else {
      RunPrefix(cfg, states, actions);
      var prefix := states[..|states| - 1];
      NoSuccessWithoutGpu(cfg, prefix, actions[..|actions| - 1]);
      hide IsRun;
      NothingRunsStep(cfg, Last(prefix), actions[|actions| - 1], Last(states));
    }
  }

  lemma NothingRunsStep(cfg: Config, s: State, a: Action, s': State)
    requires Step(cfg, s, a, s') && cfg.gpuAbsent && NothingRuns(s)
    ensures NothingRuns(s')
  {
    StepReports(cfg, s, a, s');
    WorkersStayIdle(cfg, s, a, s');
    hide Step;
    hide Recorded;
    hide Buffers;
    var n := |s.sh.metrics|;
    forall i | 0 <= i < |s'.sh.metrics| ensures !s'.sh.metrics[i].ok {
      if i < n {
        assert s'.sh.metrics[..n][i] == s.sh.metrics[i];
      } else {
        assert s'.sh.metrics[n..][i - n] == s'.sh.metrics[i];
      }
    }
  }

  lemma WorkersStayIdle(cfg: Config, s: State, a: Action, s': State)
    requires Step(cfg, s, a, s') && cfg.gpuAbsent
    requires forall i :: 0 <= i < |s.workers| ==> !s.workers[i].WRun?
    ensures forall i :: 0 <= i < |s'.workers| ==> !s'.workers[i].WRun?
  {
    hide WorkerShared;
    hide DispApply;
    hide Buffers;
    if a.Disp? {
      DispatcherLeavesHistory(cfg, s, a.free);
    }
  }

  // ----- who fails when nothing goes wrong

  /** A job in flight is the accepted job of its number. */
  predicate IsAccepted(j: Job, accepted: seq<Job>) {
    j.seqNo < |accepted| && accepted[j.seqNo] == j
  }

  function Foreign(accepted: seq<Job>): Job -> nat {
    (j: Job) => if IsAccepted(j, accepted) then 0 else 1
  }

  lemma RecordedAreAccepted(cfg: Config, states: seq<State>, actions: seq<Action>, a: Action)
    requires IsRun(cfg, states, actions)
    ensures forall j :: j in Recorded(Last(states), a) ==> IsAccepted(j, Last(states).accepted)
  {
    hide BytesRequired;
    var s := Last(states);
    var w := Foreign(s.accepted);
    RunAccepts(cfg, states, actions);
    RunLoad(cfg, states, actions, w);
    hide IsRun;
    forall j | j in s.accepted ensures w(j) == 0 {
      var k :| 0 <= k < |s.accepted| && s.accepted[k] == j;
    }
    TotalZero(s.accepted, w);
    forall j | j in Recorded(s, a) ensures w(j) == 0 {
      RecordedWeighsNothing(s, a, w, j);
    }
  }

  lemma RecordedWeighsNothing(s: State, a: Action, w: Job -> nat, j: Job)
    requires Load(s, w) == 0 && j in Recorded(s, a)
    ensures w(j) == 0
  {
    hide Buffers;
    match a
    case Disp(_) =>
      TotalConcat(s.disp.failed, KeptBy(s.disp.after), w);
      var k :| 0 <= k < |s.disp.failed| && s.disp.failed[k] == j;
      TotalBounds(s.disp.failed, w, k);
    case Work(i, _) =>
      TotalBounds(s.workers, WorkerLoad(w), i);
      var b := Unrecorded(s.workers[i]);
      var k :| 0 <= k < |b| && b[k] == j;
      TotalBounds(b, w, k);
    case _ =>
  }

  /** No allocation fails and no execution. */
  predicate NothingFails(actions: seq<Action>) {
    forall k :: 0 <= k < |actions| && actions[k].Work? ==> actions[k].act.Go?
  }

  /** The row tells success exactly if its job is not too large for the device. */
  predicate FailedIfTooLarge(cfg: Config, r: Row, accepted: seq<Job>) {
    r.seqNo < |accepted| && (r.ok <==> !TooLarge(cfg)(accepted[r.seqNo]))
  }

  ghost predicate OutcomesInv(cfg: Config, s: State) {
    && (forall i :: 0 <= i < |s.workers| ==> !s.workers[i].WGiveUp?)
    && (forall i :: 0 <= i < |s.sh.metrics| ==> FailedIfTooLarge(cfg, s.sh.metrics[i], s.accepted))
  }

  /** With a GPU, as long as no allocation and no execution fails, the jobs recorded as failed are
      exactly those recorded that are too large for the device. */
  lemma {:induction false} OnlyTooLargeFail(cfg: Config, states: seq<State>, actions: seq<Action>)
    requires IsRun(cfg, states, actions) && !cfg.gpuAbsent && NothingFails(actions)
    ensures OutcomesInv(cfg, Last(states))
    decreases |actions|
  {
    hide Step;
    if actions != [] {
      RunPrefix(cfg, states, actions);
      var prefix, a := states[..|states| - 1], actions[|actions| - 1];
      OnlyTooLargeFail(cfg, prefix, actions[..|actions| - 1]);
      hide OutcomesInv;
      RecordedAreAccepted(cfg, prefix, actions[..|actions| - 1], a);
      OnlyTooLargeAreRejected(cfg, prefix, actions[..|actions| - 1]);
      OversizedAreNeverPacked(cfg, prefix, actions[..|actions| - 1]);
      hide IsRun;
      OutcomesStep(cfg, Last(prefix), a, Last(states));
    }
  }

  lemma OutcomesStep(cfg: Config, s: State, a: Action, s': State)
    requires Step(cfg, s, a, s') && !cfg.gpuAbsent && OutcomesInv(cfg, s) && (a.Work? ==> a.act.Go?)
    requires forall j :: j in Recorded(s, a) ==> IsAccepted(j, s.accepted)
    requires FailsTooLarge(cfg, s.disp) && OnlyFitting(cfg, s)
    ensures OutcomesInv(cfg, s')
  {
    hide BytesRequired;
    StepReports(cfg, s, a, s');
    NobodyGivesUp(cfg, s, a, s');
    AcceptedGrows(cfg, s, a, s');
    hide Step;
    var n := |s.sh.metrics|;
    forall i | 0 <= i < |s'.sh.metrics| ensures FailedIfTooLarge(cfg, s'.sh.metrics[i], s'.accepted) {
      if i < n {
        assert s'.sh.metrics[..n][i] == s.sh.metrics[i];
      } else {
        var j := Recorded(s, a)[i - n];
        assert s'.sh.metrics[n..][i - n] == s'.sh.metrics[i];
        RecordedOutcome(cfg, s, a, j);
      }
      hide Recorded;
      hide RunsToItsEnd;
    }
  }

  lemma RecordedOutcome(cfg: Config, s: State, a: Action, j: Job)
    requires !cfg.gpuAbsent && j in Recorded(s, a) && (a.Work? ==> a.act.Go?)
    requires forall i :: 0 <= i < |s.workers| ==> !s.workers[i].WGiveUp?
    requires FailsTooLarge(cfg, s.disp) && OnlyFitting(cfg, s)
    ensures RunsToItsEnd(s, a) <==> !TooLarge(cfg)(j)
  {
    hide BytesRequired;
    hide Buffers;
    if a.Work? {
      assert AllFit(cfg, Reserved(s.workers[a.w]));
    }
  }

  lemma NobodyGivesUp(cfg: Config, s: State, a: Action, s': State)
    requires Step(cfg, s, a, s') && !cfg.gpuAbsent && (a.Work? ==> a.act.Go?)
    requires forall i :: 0 <= i < |s.workers| ==> !s.workers[i].WGiveUp?
    ensures forall i :: 0 <= i < |s'.workers| ==> !s'.workers[i].WGiveUp?
  {
    hide WorkerShared;
    hide DispApply;
    hide Buffers;
    if a.Disp? {
      DispatcherLeavesHistory(cfg, s, a.free);
    }
  }

  lemma AcceptedGrows(cfg: Config, s: State, a: Action, s': State)
    requires Step(cfg, s, a, s')
    ensures s.accepted <= s'.accepted
  {
    hide DispApply;
    hide WorkerShared;
    hide WorkerNext;
    if a.Disp? {
      DispatcherLeavesHistory(cfg, s, a.free);
    }
  }
}
