/** The reservation ledger: it is exact, it never saturates or wraps, and in a device with no other
    tenant it keeps the scheduler from overcommitting. */
module Ledger {
  import opened Totals
  import opened Jobs
  import opened Packing
  import opened Protocol
  import opened Conservation

  /** The batch whose reservation a worker has not released yet. */
  function Reserved(pc: WPc): seq<Job> {
    match pc
    case WRun(b, _, _) => b
    case WGiveUp(b) => b
    case WBump(b, _) => b
    case WFree(b, _) => b
    case WRelease(b) => b
    case _ => []
  }

  function ReservedLoad(): WPc -> nat {
    (pc: WPc) => Total(Reserved(pc), JobBytes())
  }

  function DispatcherReserved(d: DPc): nat {
    if d.Pushing? then Total(d.selected, JobBytes()) else 0
  }

  /** Bytes of every batch between its reservation and its release. */
  function InFlight(s: State): nat {
    Total(s.sh.batchQueue, BatchLoad(JobBytes())) + Total(s.workers, ReservedLoad()) + DispatcherReserved(s.disp)
  }

  /** Adding `bytes` keeps the ledger within `limit`; adding nothing always does. */
  predicate Affordable(reserved: size_t, bytes: nat, limit: nat) {
    bytes == 0 || reserved + bytes <= limit
  }

  /** What each value the dispatcher carries still guarantees by the time it is used, although the
      ledger may have changed since it was read. */
  predicate CarriedWithin(s: State, limit: nat) {
    match s.disp
    case ReadLedger(_, base) => base <= limit
    case Packing(_, budget) => Affordable(s.sh.reserved, budget, limit)
    case Requeueing(sel, _) => Affordable(s.sh.reserved, Total(sel, JobBytes()), limit)
    case Reserving(sel) => Affordable(s.sh.reserved, Total(sel, JobBytes()), limit)
    case _ => true
  }

  predicate LedgerInv(s: State, limit: nat) {
    && s.sh.reserved == InFlight(s) <= limit < SIZE_HALF
    && CarriedWithin(s, limit)
  }

  /** A step that samples a budget base samples one within `limit`. */
  predicate SampleWithin(cfg: Config, s: State, a: Action, limit: nat) {
    a.Disp? && s.disp.Sampling? ==>
      var d := SampleNext(cfg, s.disp.cands, a.free);
      d.ReadLedger? ==> d.base <= limit
  }

  lemma PackedIsAffordable(c: seq<Job>, budget: size_t, maxBatch: int32, now: int, reserved: size_t, limit: nat)
    requires limit < SIZE_HALF && Affordable(reserved, budget, limit)
    ensures Affordable(reserved, Total(Pack(c, budget, maxBatch, now).selected, JobBytes()), limit)
  {
    hide BytesRequired;
    UsedIsExact(Sorted(c, now), budget, maxBatch);
  }

  lemma DispatcherLedger(cfg: Config, s: State, free: size_t, limit: nat)
    requires DispEnabled(cfg, s, free) && LedgerInv(s, limit) && SampleWithin(cfg, s, Disp(free), limit)
    ensures LedgerInv(DispApply(cfg, s, free), limit)
  {
    hide BytesRequired;
    hide Total;
    hide Pack;
    hide TriageNext;
    hide DrainOrder;
    hide RowsOf;
    match s.disp
    case Packing(c, budget) => PackedIsAffordable(c, budget, cfg.maxBatch, s.clock, s.sh.reserved, limit);
    case Pushing(sel) => TotalSnoc(s.sh.batchQueue, sel, BatchLoad(JobBytes()));
    case Triage(c) => assert TriageNext(cfg, c).Failing? || TriageNext(cfg, c).Sampling? by { TriageTargets(cfg, c); }
    case _ =>
  }

  lemma TriageTargets(cfg: Config, c: seq<Job>)
    ensures TriageNext(cfg, c).Failing? || TriageNext(cfg, c).Sampling?
  {
    hide BytesRequired;
  }

  lemma WorkerLedger(cfg: Config, s: State, i: nat, act: WAct, limit: nat)
    requires WorkEnabled(s, i, act) && LedgerInv(s, limit)
    ensures LedgerInv(Apply(cfg, s, Work(i, act)), limit)
    ensures s.workers[i].WRelease? ==>
              Apply(cfg, s, Work(i, act)).sh.reserved == s.sh.reserved - Total(s.workers[i].batch, JobBytes())
  {
    hide BytesRequired;
    hide Total;
    hide Buffers;
    hide RowsOf;
    var pc := s.workers[i];
    TotalBounds(s.workers, ReservedLoad(), i);
    TotalUpdate(s.workers, i, WorkerNext(cfg, s, pc, act), ReservedLoad());
    assert Total<Job>([], JobBytes()) == 0 by { EmptyTotals(JobBytes()); }
    if pc.WWait? && s.sh.batchQueue != [] {
      PopTotal(s.sh.batchQueue, JobBytes());
    }
  }

  lemma {:induction false} IdleReserveNothing(ws: seq<WPc>)
    requires forall i :: 0 <= i < |ws| ==> ws[i].WExited? || ws[i].WWait?
    ensures Total(ws, ReservedLoad()) == 0
  {
    TotalZero(ws, ReservedLoad());
  }

  lemma LedgerStep(cfg: Config, s: State, a: Action, s': State, limit: nat)
    requires Step(cfg, s, a, s') && LedgerInv(s, limit) && SampleWithin(cfg, s, a, limit) && ThreadsOnlyWhileStarted(s)
    ensures LedgerInv(s', limit)
  {
    hide BytesRequired;
    hide DispApply;
    match a
    case Disp(free) => DispatcherLedger(cfg, s, free, limit);
    case Work(i, act) => WorkerLedger(cfg, s, i, act, limit);
    case Start =>
      IdleReserveNothing(s.workers);
      IdleReserveNothing(s'.workers);
    case _ =>
  }

  lemma LedgerInit(cfg: Config, s: State, limit: nat)
    requires Init(cfg, s) && limit < SIZE_HALF
    ensures LedgerInv(s, limit)
  {
    IdleReserveNothing(s.workers);
  }

  lemma {:induction false} RunLedger(cfg: Config, states: seq<State>, actions: seq<Action>, limit: nat)
    requires IsRun(cfg, states, actions) && limit < SIZE_HALF
    requires forall k :: 0 <= k < |actions| ==> SampleWithin(cfg, states[k], actions[k], limit)
    ensures LedgerInv(Last(states), limit)
    decreases |actions|
  {
    hide BytesRequired;
    hide Step;
    hide LedgerInv;
    hide SampleWithin;
    if actions == [] {
      LedgerInit(cfg, states[0], limit);
    } else {
      RunPrefix(cfg, states, actions);
      var prefix := states[..|states| - 1];
      RunLedger(cfg, prefix, actions[..|actions| - 1], limit);
      RunKeepsThreads(cfg, prefix, actions[..|actions| - 1]);
      LedgerStep(cfg, Last(prefix), actions[|actions| - 1], Last(states), limit);
    }
  }

  /** Ledger exactness, whatever the monitor reports: the reserved total is always the bytes of the
      packed batches, of the batches workers have not released and of the batch the dispatcher is
      about to push, and it stays below 2^63, so no `size_t` sum wraps. */
  lemma LedgerIsExact(cfg: Config, states: seq<State>, actions: seq<Action>)
    requires IsRun(cfg, states, actions)
    ensures Last(states).sh.reserved == InFlight(Last(states)) < SIZE_HALF
    ensures LedgerInv(Last(states), SIZE_HALF - 1)
  {
    hide BytesRequired;
    forall k | 0 <= k < |actions| ensures SampleWithin(cfg, states[k], actions[k], SIZE_HALF - 1) {
      assert Step(cfg, states[k], actions[k], states[k + 1]);
    }
    RunLedger(cfg, states, actions, SIZE_HALF - 1);
  }

  /** A release gives back exactly what the batch reserved: the saturating branch of the release
      never discards bytes. */
  lemma ReleaseNeverSaturates(cfg: Config, states: seq<State>, actions: seq<Action>, i: nat)
    requires IsRun(cfg, states, actions)
    requires i < |Last(states).workers| && Last(states).workers[i].WRelease?
    ensures
      var s := Last(states);
      Release(s.sh.reserved, BatchBytes(s.workers[i].batch)) == s.sh.reserved - Total(s.workers[i].batch, JobBytes())
  {
    LedgerIsExact(cfg, states, actions);
    WorkerLedger(cfg, Last(states), i, Go, SIZE_HALF - 1);
  }

  /** With nothing in flight the ledger is back at zero. */
  lemma QuiescentLedgerIsZero(cfg: Config, states: seq<State>, actions: seq<Action>)
    requires IsRun(cfg, states, actions)
    requires Last(states).sh.batchQueue == [] && !Last(states).disp.Pushing?
    requires forall i :: 0 <= i < |Last(states).workers| ==>
               Last(states).workers[i].WWait? || Last(states).workers[i].WExited?
    ensures Last(states).sh.reserved == 0
  {
    LedgerIsExact(cfg, states, actions);
    IdleReserveNothing(Last(states).workers);
  }

  // ----- the closed device: no other tenant, an ideal allocator

  function Id(): size_t -> nat {
    (x: size_t) => x
  }

  /** Bytes of the first `next` device buffers of a batch. */
  function Held(batch: seq<Job>, next: nat): nat {
    if next <= |Buffers(batch)| then Total(Buffers(batch)[..next], Id()) else 0
  }

  function DeviceLoad(): WPc -> nat {
    (pc: WPc) =>
      match pc
      case WRun(b, _, next) => Held(b, next)
      case WBump(b, next) => Held(b, next)
      case WFree(b, next) => Held(b, next)
      case _ => 0
  }

  /** Device bytes currently allocated by this scheduler. */
  function Allocated(s: State): nat {
    Total(s.workers, DeviceLoad())
  }

  /** The size of the allocation worker `i` is about to attempt; 0 if it attempts none. */
  function Attempted(s: State, i: nat): nat {
    if i < |s.workers| && s.workers[i].WRun? && s.workers[i].next < |Buffers(s.workers[i].batch)|
    then Buffers(s.workers[i].batch)[s.workers[i].next] else 0
  }

  /** The monitor reports exactly what this scheduler left free, the allocator fails only when the
      request exceeds what is left, and submitted jobs have representable footprints. */
  predicate ClosedAction(cfg: Config, s: State, a: Action) {
    match a
    case Disp(free) => s.disp.Sampling? ==> free + Allocated(s) == cfg.totalMem
    case Work(i, act) => act.AllocFails? ==> Allocated(s) + Attempted(s, i) > cfg.totalMem
    case SubmitPush(job, at) => Representable(job)
    case _ => true
  }

  ghost predicate IsClosedRun(cfg: Config, states: seq<State>, actions: seq<Action>) {
    && IsRun(cfg, states, actions)
    && forall k :: 0 <= k < |actions| ==> ClosedAction(cfg, states[k], actions[k])
  }

  /** The most the scheduler may ever reserve. */
  function Limit(cfg: Config): size_t {
    if cfg.fixedBudget > 0 then cfg.fixedBudget
    else if cfg.totalMem > cfg.margin then cfg.totalMem - cfg.margin else 0
  }

  function Unrepresentable(): Job -> nat {
    (j: Job) => if Representable(j) then 0 else 1
  }

  lemma {:induction false} BuffersOfRepresentable(batch: seq<Job>)
    requires forall j :: j in batch ==> Representable(j)
    ensures Total(Buffers(batch), Id()) == Total(batch, JobBytes())
  {
    hide BytesRequired;
    hide Representable;
    hide ElementCounts;
    hide AllocationSize;
    if batch != [] {
      var front, j := batch[..|batch| - 1], batch[|batch| - 1];
      BuffersOfRepresentable(front);
      AllocationsMatchReservation(j);
      var e := ElementCounts(j);
      var x, y, z := AllocationSize(e[0]), AllocationSize(e[1]), AllocationSize(e[2]);
      TotalSnoc(Buffers(front), x, Id());
      TotalSnoc(Buffers(front) + [x], y, Id());
      TotalSnoc(Buffers(front) + [x] + [y], z, Id());
      assert Buffers(front) + [x, y, z] == Buffers(front) + [x] + [y] + [z];
    }
  }

  /** The buffers of a batch, and any prefix of them, fit what the batch reserved. */
  lemma HeldWithinReservation(batch: seq<Job>, next: nat)
    requires forall j :: j in batch ==> Representable(j)
    ensures Held(batch, next) <= Total(batch, JobBytes())
    ensures next < |Buffers(batch)| ==> Held(batch, next + 1) == Held(batch, next) + Buffers(batch)[next]
  {
    hide BytesRequired;
    BuffersOfRepresentable(batch);
    hide Representable;
    hide Buffers;
    var bs := Buffers(batch);
    if next <= |bs| {
      assert bs == bs[..next] + bs[next..];
      TotalConcat(bs[..next], bs[next..], Id());
      if next < |bs| {
        assert bs[..next + 1] == bs[..next] + [bs[next]];
        TotalSnoc(bs[..next], bs[next], Id());
      }
    }
  }

  /** Every worker holds at most what its batch reserved. */
  predicate HoldsWithin(s: State) {
    forall i :: 0 <= i < |s.workers| ==> DeviceLoad()(s.workers[i]) <= ReservedLoad()(s.workers[i])
  }

  lemma {:induction false} ClosedJobsRepresentable(cfg: Config, states: seq<State>, actions: seq<Action>)
    requires IsClosedRun(cfg, states, actions)
    ensures Total(Last(states).accepted, Unrepresentable()) == 0
    decreases |actions|
  {
    hide BytesRequired;
    if actions != [] {
      RunPrefix(cfg, states, actions);
      var k := |actions| - 1;
      ClosedJobsRepresentable(cfg, states[..|states| - 1], actions[..k]);
      assert ClosedAction(cfg, states[k], actions[k]);
      AcceptedRepresentable(cfg, states[k], actions[k], states[k + 1]);
    }
  }

  lemma AcceptedRepresentable(cfg: Config, s: State, a: Action, s': State)
    requires Step(cfg, s, a, s') && ClosedAction(cfg, s, a) && Total(s.accepted, Unrepresentable()) == 0
    ensures Total(s'.accepted, Unrepresentable()) == 0
  {
    hide BytesRequired;
    hide DispApply;
    match a
    case SubmitPush(job, at) => TotalSnoc(s.accepted, Stamped(job, at, s.sh.nextSeq), Unrepresentable());
    case Disp(free) => DispatcherLeavesHistory(cfg, s, free);
    case _ =>
  }

  /** The batch a worker is allocating for consists of accepted, hence representable, jobs. */
  lemma RunningBatchRepresentable(s: State, i: nat)
    requires Load(s, Unrepresentable()) == 0
    requires i < |s.workers| && s.workers[i].WRun?
    ensures forall j :: j in s.workers[i].batch ==> Representable(j)
  {
    hide BytesRequired;
    hide Representable;
    var b := s.workers[i].batch;
    TotalBounds(s.workers, WorkerLoad(Unrepresentable()), i);
    forall j | j in b ensures Representable(j) {
      var k :| 0 <= k < |b| && b[k] == j;
      TotalBounds(b, Unrepresentable(), k);
    }
  }

  lemma HoldsStep(cfg: Config, s: State, a: Action, s': State)
    requires Step(cfg, s, a, s') && HoldsWithin(s) && Load(s, Unrepresentable()) == 0
    ensures HoldsWithin(s')
  {
    hide BytesRequired;
    hide DispApply;
    hide Total;
    hide Buffers;
    hide Load;
    match a
    case Disp(free) => DispatcherLeavesHistory(cfg, s, free);
    case Work(i, act) =>
      var pc := s.workers[i];
      if pc.WRun? {
        RunningBatchRepresentable(s, i);
        HeldWithinReservation(pc.batch, pc.next);
        HeldWithinReservation(pc.batch, pc.next + 1);
        HeldWithinReservation(pc.batch, 0);
      } else {
        HeldNothing();
      }
    case Start => HeldNothing();
    case _ =>
  }

  lemma HeldNothing()
    ensures forall b: seq<Job> :: Held(b, 0) == 0
  {
    forall b: seq<Job> ensures Held(b, 0) == 0 {
      assert Buffers(b)[..0] == [];
    }
  }

  lemma AllocatedWithinReserved(s: State)
    requires HoldsWithin(s)
    ensures Allocated(s) <= InFlight(s)
  {
    TotalMonotone(s.workers, DeviceLoad(), ReservedLoad());
  }

  ghost predicate ClosedInv(cfg: Config, s: State) {
    LedgerInv(s, Limit(cfg)) && HoldsWithin(s)
  }

  lemma {:induction false} RunClosed(cfg: Config, states: seq<State>, actions: seq<Action>)
    requires IsClosedRun(cfg, states, actions)
    ensures ClosedInv(cfg, Last(states)) && Load(Last(states), Unrepresentable()) == 0
    decreases |actions|
  {
    hide BytesRequired;
    hide Step;
    hide Load;
    hide LedgerInv;
    hide HoldsWithin;
    ClosedJobsRepresentable(cfg, states, actions);
    RunLoad(cfg, states, actions, Unrepresentable());
    if actions == [] {
      LedgerInit(cfg, states[0], Limit(cfg));
      HoldsInit(cfg, states[0]);
    } else {
      RunPrefix(cfg, states, actions);
      var k := |actions| - 1;
      var prefix := states[..|states| - 1];
      RunClosed(cfg, prefix, actions[..k]);
      RunKeepsThreads(cfg, prefix, actions[..k]);
      assert ClosedAction(cfg, states[k], actions[k]);
      ClosedSample(cfg, states[k], actions[k]);
      LedgerStep(cfg, states[k], actions[k], states[k + 1], Limit(cfg));
      HoldsStep(cfg, states[k], actions[k], states[k + 1]);
    }
  }

  lemma HoldsInit(cfg: Config, s: State)
    requires Init(cfg, s)
    ensures HoldsWithin(s)
  {
  }

  lemma ClosedSample(cfg: Config, s: State, a: Action)
    requires ClosedAction(cfg, s, a)
    ensures SampleWithin(cfg, s, a, Limit(cfg))
  {
    hide BytesRequired;
  }

  /** No self-overcommit. In a device with no other tenant, in every reachable state the allocated
      bytes are at most the reserved bytes, and those at most the device size minus the margin (the
      fixed budget when one is set), although sampling, reading the ledger, packing and reserving
      are separate steps. If that limit fits the device, every allocation a worker can attempt
      fits too, so an ideal allocator has no failing step. */
  lemma NoSelfOvercommit(cfg: Config, states: seq<State>, actions: seq<Action>)
    requires IsClosedRun(cfg, states, actions)
    ensures
      var s := Last(states);
      && Allocated(s) <= s.sh.reserved <= Limit(cfg)
      && (Limit(cfg) <= cfg.totalMem ==>
            forall i: nat, oom :: !(WorkEnabled(s, i, AllocFails(oom))
                                    && ClosedAction(cfg, s, Work(i, AllocFails(oom)))))
  {
    hide BytesRequired;
    RunClosed(cfg, states, actions);
    var s := Last(states);
    AllocatedWithinReserved(s);
    if Limit(cfg) <= cfg.totalMem {
      forall i: nat, oom
        ensures !(WorkEnabled(s, i, AllocFails(oom)) && ClosedAction(cfg, s, Work(i, AllocFails(oom))))
      {
        if WorkEnabled(s, i, AllocFails(oom)) {
          NextAllocationFits(s, i);
        }
      }
    }
  }

  lemma NextAllocationFits(s: State, i: nat)
    requires HoldsWithin(s) && Load(s, Unrepresentable()) == 0
    requires i < |s.workers| && s.workers[i].WRun? && s.workers[i].next < |Buffers(s.workers[i].batch)|
    ensures Allocated(s) + Attempted(s, i) <= InFlight(s)
  {
    hide BytesRequired;
    hide Load;
    hide Buffers;
    hide Total;
    var pc := s.workers[i];
    RunningBatchRepresentable(s, i);
    HeldWithinReservation(pc.batch, pc.next);
    HeldWithinReservation(pc.batch, pc.next + 1);
    var grown := s.(workers := s.workers[i := WRun(pc.batch, pc.attempt, pc.next + 1)]);
    AllocatedWithinReserved(grown);
    TotalUpdate(s.workers, i, grown.workers[i], DeviceLoad());
    TotalUpdate(s.workers, i, grown.workers[i], ReservedLoad());
  }
}
