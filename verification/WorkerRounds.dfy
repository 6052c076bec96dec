/** One round of a worker, from waiting until it waits again, as steps of the protocol. */
module WorkerRounds {
  import opened Protocol

  /** Steps `acts` of worker `w` with nobody else running. */
  function WorkIterate(cfg: Config, s: State, w: nat, acts: seq<WAct>): (t: State)
    requires w < |s.workers|
    ensures |t.workers| == |s.workers|
  {
    if acts == [] then s
    else
      var t, act := WorkIterate(cfg, s, w, acts[..|acts| - 1]), acts[|acts| - 1];
      t.(sh := WorkerShared(t.sh, t.workers[w], act), workers := t.workers[w := WorkerNext(cfg, t, t.workers[w], act)])
  }

  /** Every step is one the protocol allows, and none but the last leads back to waiting. */
  ghost predicate WorkPath(cfg: Config, s: State, w: nat, acts: seq<WAct>)
    requires w < |s.workers|
  {
    && (forall k :: 0 <= k < |acts| ==> WorkEnabled(WorkIterate(cfg, s, w, acts[..k]), w, acts[k]))
    && (forall k :: 0 < k < |acts| ==> !WorkIterate(cfg, s, w, acts[..k]).workers[w].WWait?)
  }

  /** The front batch has been popped. */
  function Popped(sh: Shared): Shared
    requires sh.batchQueue != []
  {
    sh.(batchQueue := sh.batchQueue[1..])
  }

  /** What a round leaves behind: the front batch popped, recorded, counted and released. */
  function WorkerOutcome(sh: Shared, ok: bool): Shared
    requires sh.batchQueue != []
  {
    var b := sh.batchQueue[0];
    Popped(sh).(metrics := sh.metrics + RowsOf(b, ok), completed := sh.completed + |b|,
                reserved := Release(sh.reserved, BatchBytes(b)))
  }

  /** The shared state while the worker is at `pc`, having popped the front batch of `sh0`. */
  predicate Midway(cfg: Config, sh0: Shared, sh: Shared, pc: WPc, ok: bool)
    requires sh0.batchQueue != []
  {
    var b := sh0.batchQueue[0];
    match pc
    case WRun(batch, _, _) => batch == b && sh == Popped(sh0) && !cfg.gpuAbsent
    case WGiveUp(batch) => batch == b && sh == Popped(sh0)
    case WBump(batch, _) => batch == b && sh == Popped(sh0).(metrics := sh0.metrics + RowsOf(b, ok))
    case WFree(batch, _) =>
      batch == b && sh == Popped(sh0).(metrics := sh0.metrics + RowsOf(b, ok), completed := sh0.completed + |b|)
    case WRelease(batch) =>
      batch == b && sh == Popped(sh0).(metrics := sh0.metrics + RowsOf(b, ok), completed := sh0.completed + |b|)
    case WWait => sh == WorkerOutcome(sh0, ok)
    case WExited => false
  }

  lemma WorkSnoc(cfg: Config, s: State, w: nat, acts: seq<WAct>, act: WAct)
    requires w < |s.workers|
    ensures var t := WorkIterate(cfg, s, w, acts);
            WorkIterate(cfg, s, w, acts + [act])
            == t.(sh := WorkerShared(t.sh, t.workers[w], act),
                  workers := t.workers[w := WorkerNext(cfg, t, t.workers[w], act)])
  {
    assert (acts + [act])[..|acts|] == acts;
  }

  /** One more step of a path. */
  lemma PathSnoc(cfg: Config, s: State, w: nat, acts: seq<WAct>, act: WAct)
    requires w < |s.workers| && WorkPath(cfg, s, w, acts)
    requires var t := WorkIterate(cfg, s, w, acts); WorkEnabled(t, w, act) && (acts != [] ==> !t.workers[w].WWait?)
    ensures WorkPath(cfg, s, w, acts + [act])
  {
    hide WorkEnabled;
    hide WorkIterate;
    var more := acts + [act];
    assert more[..|acts|] == acts;
    assert forall k :: 0 <= k <= |acts| ==> more[..k] == acts[..k];
  }

  /** `acts` is a path that leads to `sh` and `pc` and leaves everything else alone. */
  ghost predicate Leads(cfg: Config, s: State, w: nat, acts: seq<WAct>, sh: Shared, pc: WPc)
    requires w < |s.workers|
  {
    WorkPath(cfg, s, w, acts) && WorkIterate(cfg, s, w, acts) == s.(sh := sh, workers := s.workers[w := pc])
  }

  lemma LeadsOn(cfg: Config, s: State, w: nat, acts: seq<WAct>, sh: Shared, pc: WPc, act: WAct)
    requires w < |s.workers| && Leads(cfg, s, w, acts, sh, pc) && (acts != [] ==> !pc.WWait?)
    requires WorkEnabled(s.(sh := sh, workers := s.workers[w := pc]), w, act)
    ensures Leads(cfg, s, w, acts + [act], WorkerShared(sh, pc, act), WorkerNext(cfg, s.(sh := sh), pc, act))
  {
    hide WorkPath;
    hide WorkIterate;
    hide WorkerShared;
    hide WorkEnabled;
    var t := s.(sh := sh, workers := s.workers[w := pc]);
    WorkSnoc(cfg, s, w, acts, act);
    PathSnoc(cfg, s, w, acts, act);
    NextReadsShared(cfg, s.(sh := sh), t, pc, act);
    hide WorkerNext;
    assert t.workers[w := WorkerNext(cfg, t, pc, act)] == s.workers[w := WorkerNext(cfg, t, pc, act)];
  }

  lemma NextReadsShared(cfg: Config, s: State, t: State, pc: WPc, act: WAct)
    requires s.sh == t.sh
    ensures WorkerNext(cfg, s, pc, act) == WorkerNext(cfg, t, pc, act)
  {
  }

  lemma LeadsNowhere(cfg: Config, s: State, w: nat)
    requires w < |s.workers|
    ensures Leads(cfg, s, w, [], s.sh, s.workers[w])
  {
    assert s.workers[w := s.workers[w]] == s.workers;
  }

  // ----- what every round does

  /** The first step of a round. */
  lemma RoundStarts(cfg: Config, t: State, w: nat, act: WAct)
    requires WorkEnabled(t, w, act) && t.workers[w].WWait? && t.sh.batchQueue != []
    ensures Midway(cfg, t.sh, WorkerShared(t.sh, WWait, act), WorkerNext(cfg, t, WWait, act), false)
  {
    hide RowsOf;
    hide BatchBytes;
    hide Buffers;
  }

  /** Every later step. */
  lemma MidwayStep(cfg: Config, sh0: Shared, t: State, w: nat, act: WAct, ok: bool) returns (ok': bool)
    requires sh0.batchQueue != [] && WorkEnabled(t, w, act) && !t.workers[w].WWait?
    requires Midway(cfg, sh0, t.sh, t.workers[w], ok) && (ok ==> !cfg.gpuAbsent)
    ensures Midway(cfg, sh0, WorkerShared(t.sh, t.workers[w], act), WorkerNext(cfg, t, t.workers[w], act), ok')
    ensures ok' ==> !cfg.gpuAbsent
  {
    hide RowsOf;
    hide BatchBytes;
    hide Buffers;
    ok' := if t.workers[w].WRun? || t.workers[w].WGiveUp? then t.workers[w].WRun? && act.Go? else ok;
  }

  /** After the first step a round is midway or over, whatever the steps are. */
  lemma {:induction false} RoundIsMidway(cfg: Config, s: State, w: nat, acts: seq<WAct>) returns (ok: bool)
    requires w < |s.workers| && s.workers[w].WWait? && s.sh.batchQueue != [] && acts != []
    requires WorkPath(cfg, s, w, acts)
    ensures var t := WorkIterate(cfg, s, w, acts);
            Leads(cfg, s, w, acts, t.sh, t.workers[w]) && Midway(cfg, s.sh, t.sh, t.workers[w], ok)
    ensures ok ==> !cfg.gpuAbsent
    decreases |acts|
  {
    var front, act := acts[..|acts| - 1], acts[|acts| - 1];
    PathFront(cfg, s, w, acts);
    hide WorkPath;
    hide Midway;
    var t := WorkIterate(cfg, s, w, front);
    if front == [] {
      LeadsNowhere(cfg, s, w);
      RoundStarts(cfg, s, w, act);
      ok := false;
    } else {
      var before := RoundIsMidway(cfg, s, w, front);
      ok := MidwayStep(cfg, s.sh, t, w, act, before);
    }
    hide WorkerShared;
    hide WorkerNext;
    hide WorkEnabled;
    assert acts == front + [act];
    WorkSnoc(cfg, s, w, front, act);
    hide WorkIterate;
  }

  lemma PathFront(cfg: Config, s: State, w: nat, acts: seq<WAct>)
    requires w < |s.workers| && acts != [] && WorkPath(cfg, s, w, acts)
    ensures var front := acts[..|acts| - 1];
            && WorkPath(cfg, s, w, front)
            && WorkEnabled(WorkIterate(cfg, s, w, front), w, acts[|acts| - 1])
            && (front != [] ==> !WorkIterate(cfg, s, w, front).workers[w].WWait?)
  {
    hide WorkEnabled;
    hide WorkIterate;
    assert forall k :: 0 <= k < |acts| ==> acts[..k] == acts[..|acts| - 1][..k];
    assert acts[..|acts| - 1][..|acts| - 1] == acts[..|acts| - 1];
  }

  /** Every round of a worker pops the front batch, records all its jobs with one outcome, counts
      them and gives their reservation back; nothing else changes, and nothing is recorded as done
      without a GPU. */
  lemma WorkerRoundsEnd(cfg: Config, s: State, w: nat, acts: seq<WAct>) returns (ok: bool)
    requires w < |s.workers| && s.workers[w].WWait? && s.sh.batchQueue != [] && acts != []
    requires WorkPath(cfg, s, w, acts) && WorkIterate(cfg, s, w, acts).workers[w].WWait?
    ensures WorkIterate(cfg, s, w, acts) == s.(sh := WorkerOutcome(s.sh, ok)) && (ok ==> !cfg.gpuAbsent)
  {
    ok := RoundIsMidway(cfg, s, w, acts);
    hide WorkIterate;
    hide WorkerOutcome;
    hide WorkPath;
    assert s.workers[w := WWait] == s.workers;
  }

  // ----- how often a round tries

  /** The allocations that failed, in order; true where for lack of memory. */
  function FailedAllocations(acts: seq<WAct>): seq<bool> {
    if acts == [] then []
    else
      var last := acts[|acts| - 1];
      FailedAllocations(acts[..|acts| - 1]) + (if last.AllocFails? then [last.oom] else [])
  }

  /** While the worker is trying, all its failures were for lack of memory and there are at most 200; it
      gives up after a failure of another kind, or after 201 for lack of memory. */
  predicate Tries(pc: WPc, failed: seq<bool>) {
    match pc
    case WRun(_, attempt, _) => attempt == |failed| <= 200 && forall i :: 0 <= i < |failed| ==> failed[i]
    case WGiveUp(_) =>
      && 1 <= |failed| <= 201 && (forall i :: 0 <= i < |failed| - 1 ==> failed[i])
      && (failed[|failed| - 1] ==> |failed| == 201)
    case _ => true
  }

  /** The round of a worker retries as `AllocateBatch` does: at most 200 times, only after a lack of
      memory, and it gives up for lack of memory only when the last retry fails. */
  lemma {:induction false} WorkerRetries(cfg: Config, s: State, w: nat, acts: seq<WAct>)
    requires w < |s.workers| && s.workers[w].WWait? && s.sh.batchQueue != [] && !cfg.gpuAbsent && acts != []
    requires WorkPath(cfg, s, w, acts)
    ensures Tries(WorkIterate(cfg, s, w, acts).workers[w], FailedAllocations(acts))
    decreases |acts|
  {
    var front, act := acts[..|acts| - 1], acts[|acts| - 1];
    PathFront(cfg, s, w, acts);
    StepUnfolds(cfg, s, w, acts);
    hide WorkPath;
    hide WorkEnabled;
    hide WorkerNext;
    hide Tries;
    var t := WorkIterate(cfg, s, w, front);
    if front == [] {
      FirstTry(cfg, s, w, act);
    } else {
      hide WorkIterate;
      WorkerRetries(cfg, s, w, front);
      TriesStep(cfg, t, w, act, FailedAllocations(front));
      hide FailedAllocations;
    }
  }

  lemma StepUnfolds(cfg: Config, s: State, w: nat, acts: seq<WAct>)
    requires w < |s.workers| && acts != []
    ensures
      var t, act := WorkIterate(cfg, s, w, acts[..|acts| - 1]), acts[|acts| - 1];
      && WorkIterate(cfg, s, w, acts).workers[w] == WorkerNext(cfg, t, t.workers[w], act)
      && FailedAllocations(acts)
         == FailedAllocations(acts[..|acts| - 1]) + (if act.AllocFails? then [act.oom] else [])
  {
    hide WorkerNext;
    hide WorkerShared;
  }

  lemma FirstTry(cfg: Config, s: State, w: nat, act: WAct)
    requires WorkEnabled(s, w, act) && s.workers[w].WWait? && s.sh.batchQueue != [] && !cfg.gpuAbsent
    ensures Tries(WorkerNext(cfg, s, s.workers[w], act),
                  FailedAllocations([]) + if act.AllocFails? then [act.oom] else [])
  {
  }

  lemma TriesStep(cfg: Config, t: State, w: nat, act: WAct, failed: seq<bool>)
    requires WorkEnabled(t, w, act) && !t.workers[w].WWait? && Tries(t.workers[w], failed)
    ensures Tries(WorkerNext(cfg, t, t.workers[w], act), failed + if act.AllocFails? then [act.oom] else [])
  {
    hide Buffers;
    assert failed + [] == failed;
  }

  /** Buffers of size zero are not asked of the allocator, so nothing can fail for a batch that needs no
      memory. */
  lemma {:induction false} NothingToAllocateNeverFails(cfg: Config, s: State, w: nat, acts: seq<WAct>)
    requires w < |s.workers| && s.workers[w].WWait? && s.sh.batchQueue != [] && !cfg.gpuAbsent && acts != []
    requires forall i :: 0 <= i < |Buffers(s.sh.batchQueue[0])| ==> Buffers(s.sh.batchQueue[0])[i] == 0
    requires WorkPath(cfg, s, w, acts)
    ensures FailedAllocations(acts) == [] && !WorkIterate(cfg, s, w, acts).workers[w].WGiveUp?
    decreases |acts|
  {
    var front, act := acts[..|acts| - 1], acts[|acts| - 1];
    PathFront(cfg, s, w, acts);
    StepUnfolds(cfg, s, w, acts);
    var t := WorkIterate(cfg, s, w, front);
    if front == [] {
      hide Buffers;
      assert FailedAllocations(front) == [];
    } else {
      NothingToAllocateNeverFails(cfg, s, w, front);
      var ok := RoundIsMidway(cfg, s, w, front);
      hide WorkPath;
      hide WorkIterate;
      hide FailedAllocations;
      hide Buffers;
      hide RowsOf;
      hide BatchBytes;
      hide WorkerShared;
    }
  }

  // ----- every such round is possible

  /** The worker has allocated the first `n` buffers of its batch. */
  lemma {:induction false} WorkerAllocates(cfg: Config, s: State, w: nat, n: nat) returns (acts: seq<WAct>)
    requires w < |s.workers| && s.workers[w].WWait? && s.sh.batchQueue != [] && !cfg.gpuAbsent
    requires n <= |Buffers(s.sh.batchQueue[0])|
    ensures acts != [] && Leads(cfg, s, w, acts, Popped(s.sh), WRun(s.sh.batchQueue[0], 0, n))
  {
    hide Buffers;
    hide Leads;
    hide RowsOf;
    hide BatchBytes;
    if n == 0 {
      LeadsNowhere(cfg, s, w);
      LeadsOn(cfg, s, w, [], s.sh, WWait, Go);
      acts := [] + [Go];
    } else {
      var front := WorkerAllocates(cfg, s, w, n - 1);
      LeadsOn(cfg, s, w, front, Popped(s.sh), WRun(s.sh.batchQueue[0], 0, n - 1), Go);
      acts := front + [Go];
    }
  }

  /** The worker has recorded its batch with outcome `ok`. */
  lemma WorkerRecords(cfg: Config, s: State, w: nat, ok: bool) returns (acts: seq<WAct>, next: nat)
    requires w < |s.workers| && s.workers[w].WWait? && s.sh.batchQueue != [] && (ok ==> !cfg.gpuAbsent)
    ensures acts != []
    ensures var b := s.sh.batchQueue[0];
            Leads(cfg, s, w, acts, Popped(s.sh).(metrics := s.sh.metrics + RowsOf(b, ok)), WBump(b, next))
  {
    hide Buffers;
    hide Leads;
    hide RowsOf;
    hide BatchBytes;
    var b := s.sh.batchQueue[0];
    if cfg.gpuAbsent {
      LeadsNowhere(cfg, s, w);
      LeadsOn(cfg, s, w, [], s.sh, WWait, Go);
      LeadsOn(cfg, s, w, [] + [Go], Popped(s.sh), WGiveUp(b), Go);
      acts, next := [] + [Go] + [Go], 0;
    } else {
      var n, act := |Buffers(b)|, if ok then Go else ExecFails;
      var front := WorkerAllocates(cfg, s, w, n);
      LeadsOn(cfg, s, w, front, Popped(s.sh), WRun(b, 0, n), act);
      acts, next := front + [act], n;
    }
  }

  /** A round with either outcome is possible where there is a GPU, and a failing one where there is
      none. */
  lemma WorkerRoundExists(cfg: Config, s: State, w: nat, ok: bool) returns (acts: seq<WAct>)
    requires w < |s.workers| && s.workers[w].WWait? && s.sh.batchQueue != [] && (ok ==> !cfg.gpuAbsent)
    ensures acts != [] && WorkPath(cfg, s, w, acts)
    ensures WorkIterate(cfg, s, w, acts) == s.(sh := WorkerOutcome(s.sh, ok))
  {
    hide Leads;
    hide RowsOf;
    hide BatchBytes;
    hide Buffers;
    var b := s.sh.batchQueue[0];
    var a0, next := WorkerRecords(cfg, s, w, ok);
    var sh0 := Popped(s.sh).(metrics := s.sh.metrics + RowsOf(b, ok));
    var sh1 := sh0.(completed := sh0.completed + |b|);
    LeadsOn(cfg, s, w, a0, sh0, WBump(b, next), Go);
    LeadsOn(cfg, s, w, a0 + [Go], sh1, WFree(b, next), Go);
    LeadsOn(cfg, s, w, a0 + [Go] + [Go], sh1, WRelease(b), Go);
    acts := a0 + [Go] + [Go] + [Go];
    LeadsBack(cfg, s, w, acts, WorkerOutcome(s.sh, ok));
  }

  lemma LeadsBack(cfg: Config, s: State, w: nat, acts: seq<WAct>, sh: Shared)
    requires w < |s.workers| && s.workers[w].WWait? && Leads(cfg, s, w, acts, sh, WWait)
    ensures WorkPath(cfg, s, w, acts) && WorkIterate(cfg, s, w, acts) == s.(sh := sh)
  {
    hide WorkPath;
    hide WorkIterate;
    assert s.workers[w := WWait] == s.workers;
  }
}
