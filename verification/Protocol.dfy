/** The dispatcher / worker / ledger protocol as a state machine. One step is one critical section
    or one atomic operation; what a thread has read but not yet acted on is held in its program
    counter, so every value a thread acts on may be stale. */
module Protocol {
  import opened Totals
  import opened Jobs
  import opened Packing

  const MAX_ALLOC_RETRIES: nat := 200

  /** Options and the device facts fixed by `start`. Byte quantities stay below 2^63. */
  datatype Config = Config(numWorkers: nat, maxBatch: int32, margin: size_t, fixedBudget: size_t,
                           totalMem: size_t, gpuAbsent: bool)

  predicate ConfigOk(cfg: Config) {
    cfg.fixedBudget < SIZE_HALF && cfg.totalMem < SIZE_HALF
  }

  function MaxQueueDepth(cfg: Config): nat {
    if 2 < 2 * cfg.numWorkers then 2 * cfg.numWorkers else 2
  }

  /** Largest footprint this device can ever serve; 0 when the device size is unknown. */
  function MaxJobBytes(cfg: Config): size_t {
    if cfg.totalMem > cfg.margin then cfg.totalMem - cfg.margin else 0
  }

  // ----- shared fields of the scheduler and the updates made to them

  datatype Row = Row(jobId: nat, seqNo: nat, priority: int32, ok: bool)

  datatype Shared = Shared(queue: seq<Job>, nextSeq: nat, batchQueue: seq<seq<Job>>, reserved: size_t,
                           metrics: seq<Row>, submitted: nat, completed: nat, started: bool, shutdown: bool)

  function RowOf(j: Job, ok: bool): Row {
    Row(j.id, j.seqNo, j.priority, ok)
  }

  function RowsOf(batch: seq<Job>, ok: bool): seq<Row> {
    if batch == [] then [] else RowsOf(batch[..|batch| - 1], ok) + [RowOf(batch[|batch| - 1], ok)]
  }

  function Stamped(job: Job, at: int, seqNo: nat): Job {
    job.(submitTime := at, seqNo := seqNo)
  }

  function BatchBytes(batch: seq<Job>): size_t {
    ToSize(Total(batch, JobBytes()))
  }

  function Reserve(reserved: size_t, bytes: size_t): size_t {
    ToSize(reserved + bytes)
  }

  function Release(reserved: size_t, bytes: size_t): size_t {
    if bytes > reserved then 0 else reserved - bytes
  }

  function Remaining(base: size_t, reserved: size_t): size_t {
    if base > reserved then base - reserved else 0
  }

  function Oversized(c: seq<Job>, maxJob: size_t): seq<Job> {
    if c == [] then []
    else Oversized(c[..|c| - 1], maxJob) + (if BytesRequired(c[|c| - 1]) > maxJob then [c[|c| - 1]] else [])
  }

  function Fitting(c: seq<Job>, maxJob: size_t): seq<Job> {
    if c == [] then []
    else Fitting(c[..|c| - 1], maxJob) + (if BytesRequired(c[|c| - 1]) > maxJob then [] else [c[|c| - 1]])
  }

  // ----- program counters

  /** Where the dispatcher goes after failing jobs: back to waiting, or on to packing `kept`. */
  datatype After = AfterNoGpu | AfterOversized(kept: seq<Job>)

  datatype DPc =
    | WaitSpace
    | WaitQueue
    | Triage(cands: seq<Job>)
    | Failing(failed: seq<Job>, after: After)
    | FailBump(count: nat, after: After)
    | Sampling(cands: seq<Job>)
    | ReadLedger(cands: seq<Job>, base: size_t)
    | Packing(cands: seq<Job>, budget: size_t)
    | Requeueing(selected: seq<Job>, remaining: seq<Job>)
    | Reserving(selected: seq<Job>)
    | Pushing(selected: seq<Job>)
    | DExited

  /** `next` counts the device buffers of the batch that are allocated at this point. */
  datatype WPc =
    | WWait
    | WRun(batch: seq<Job>, attempt: nat, next: nat)
    | WGiveUp(batch: seq<Job>)
    | WBump(batch: seq<Job>, next: nat)
    | WFree(batch: seq<Job>, next: nat)
    | WRelease(batch: seq<Job>)
    | WExited

  /** `accepted` is a history of every job pushed by `submit`, in sequence-number order;
      `unbumped` counts submitters between their push and their counter increment. */
  datatype State = State(sh: Shared, accepted: seq<Job>, unbumped: nat, clock: int, disp: DPc, workers: seq<WPc>)

  /** Allocation sizes of a batch in the order the worker asks for them. */
  function Buffers(batch: seq<Job>): seq<size_t> {
    if batch == [] then []
    else
      var e := ElementCounts(batch[|batch| - 1]);
      Buffers(batch[..|batch| - 1]) + [AllocationSize(e[0]), AllocationSize(e[1]), AllocationSize(e[2])]
  }

  // ----- steps

  datatype WAct = Go | AllocFails(oom: bool) | ExecFails

  datatype Action =
    | SubmitPush(job: Job, at: int)
    | SubmitBump
    | Tick(now: int)
    | Start
    | StopSignal
    | StopJoined
    | Disp(free: size_t)
    | Work(w: nat, act: WAct)

  predicate AllExited(s: State) {
    s.disp.DExited? && forall w :: 0 <= w < |s.workers| ==> s.workers[w].WExited?
  }

  predicate DispEnabled(cfg: Config, s: State, free: size_t) {
    match s.disp
    case WaitSpace => s.sh.shutdown || |s.sh.batchQueue| < MaxQueueDepth(cfg)
    case WaitQueue => s.sh.shutdown || s.sh.queue != []
    case DExited => false
    case _ => free < SIZE_HALF
  }

  function TriageNext(cfg: Config, c: seq<Job>): DPc {
    if cfg.gpuAbsent then Failing(c, AfterNoGpu)
    else if MaxJobBytes(cfg) > 0 && Oversized(c, MaxJobBytes(cfg)) != []
    then Failing(Oversized(c, MaxJobBytes(cfg)), AfterOversized(Fitting(c, MaxJobBytes(cfg))))
    else Sampling(c)
  }

  /** Budget base read by the dispatcher, or an immediate zero budget. */
  function SampleNext(cfg: Config, c: seq<Job>, free: size_t): DPc {
    if cfg.fixedBudget > 0 then ReadLedger(c, cfg.fixedBudget)
    else if free <= cfg.margin then Packing(c, 0)
    else ReadLedger(c, free - cfg.margin)
  }

  function DispApply(cfg: Config, s: State, free: size_t): State {
    match s.disp
    case WaitSpace => s.(disp := if s.sh.shutdown then DExited else WaitQueue)
    case WaitQueue =>
      if s.sh.shutdown then s.(disp := DExited)
      else s.(sh := s.sh.(queue := []), disp := Triage(DrainOrder(s.sh.queue)))
    case Triage(c) => s.(disp := TriageNext(cfg, c))
    case Failing(f, after) => s.(sh := s.sh.(metrics := s.sh.metrics + RowsOf(f, false)), disp := FailBump(|f|, after))
    case FailBump(n, after) =>
      s.(sh := s.sh.(completed := s.sh.completed + n),
         disp := if after.AfterNoGpu? then WaitSpace else Sampling(after.kept))
    case Sampling(c) => s.(disp := SampleNext(cfg, c, free))
    case ReadLedger(c, base) => s.(disp := Packing(c, Remaining(base, s.sh.reserved)))
    case Packing(c, budget) =>
      var p := Pack(c, budget, cfg.maxBatch, s.clock);
      s.(disp := Requeueing(p.selected, p.remaining))
    case Requeueing(sel, rem) =>
      s.(sh := s.sh.(queue := s.sh.queue + rem), disp := if sel != [] then Reserving(sel) else WaitSpace)
    case Reserving(sel) => s.(sh := s.sh.(reserved := Reserve(s.sh.reserved, BatchBytes(sel))), disp := Pushing(sel))
    case Pushing(sel) => s.(sh := s.sh.(batchQueue := s.sh.batchQueue + [sel]), disp := WaitSpace)
    case DExited => s
  }

  predicate WorkEnabled(s: State, w: nat, act: WAct) {
    && w < |s.workers|
    && match s.workers[w]
       case WWait => act.Go? && (s.sh.shutdown || s.sh.batchQueue != [])
       case WRun(b, _, next) =>
         if next < |Buffers(b)| then act.Go? || (act.AllocFails? && Buffers(b)[next] > 0)
         else act.Go? || act.ExecFails?
       case WExited => false
       case _ => act.Go?
  }

  /** The thread-local half of a worker step. */
  function WorkerNext(cfg: Config, s: State, pc: WPc, act: WAct): WPc {
    match pc
    case WWait =>
      if s.sh.batchQueue == [] then WExited
      else if cfg.gpuAbsent then WGiveUp(s.sh.batchQueue[0])
      else WRun(s.sh.batchQueue[0], 0, 0)
    case WRun(b, attempt, next) =>
      if next >= |Buffers(b)| then WBump(b, next)
      else if act.Go? then WRun(b, attempt, next + 1)
      else if act == AllocFails(true) && attempt < MAX_ALLOC_RETRIES then WRun(b, attempt + 1, 0)
      else WGiveUp(b)
    case WGiveUp(b) => WBump(b, 0)
    case WBump(b, next) => WFree(b, next)
    case WFree(b, _) => WRelease(b)
    case WRelease(_) => WWait
    case WExited => WExited
  }

  /** The shared half of a worker step. */
  function WorkerShared(sh: Shared, pc: WPc, act: WAct): Shared {
    match pc
    case WWait => if sh.batchQueue == [] then sh else sh.(batchQueue := sh.batchQueue[1..])
    case WRun(b, _, next) =>
      if next >= |Buffers(b)| then sh.(metrics := sh.metrics + RowsOf(b, act.Go?)) else sh
    case WGiveUp(b) => sh.(metrics := sh.metrics + RowsOf(b, false))
    case WBump(b, _) => sh.(completed := sh.completed + |b|)
    case WFree(_, _) => sh
    case WRelease(b) => sh.(reserved := Release(sh.reserved, BatchBytes(b)))
    case WExited => sh
  }

  predicate Enabled(cfg: Config, s: State, a: Action) {
    match a
    case SubmitPush(_, at) => 0 < at <= s.clock
    case SubmitBump => s.unbumped > 0
    case Tick(now) => s.clock <= now
    case Start => !s.sh.started
    case StopSignal => s.sh.started
    case StopJoined => s.sh.started && s.sh.shutdown && AllExited(s)
    case Disp(free) => DispEnabled(cfg, s, free)
    case Work(w, act) => WorkEnabled(s, w, act)
  }

  function Apply(cfg: Config, s: State, a: Action): State
    requires Enabled(cfg, s, a)
  {
    match a
    case SubmitPush(job, at) =>
      var j := Stamped(job, at, s.sh.nextSeq);
      s.(sh := s.sh.(queue := s.sh.queue + [j], nextSeq := s.sh.nextSeq + 1),
         accepted := s.accepted + [j], unbumped := s.unbumped + 1)
    case SubmitBump => s.(sh := s.sh.(submitted := s.sh.submitted + 1), unbumped := s.unbumped - 1)
    case Tick(now) => s.(clock := now)
    case Start =>
      s.(sh := s.sh.(started := true, shutdown := false), disp := WaitSpace, workers := seq(|s.workers|, _ => WWait))
    case StopSignal => s.(sh := s.sh.(shutdown := true))
    case StopJoined => s.(sh := s.sh.(started := false))
    case Disp(free) => DispApply(cfg, s, free)
    case Work(w, act) =>
      s.(sh := WorkerShared(s.sh, s.workers[w], act), workers := s.workers[w := WorkerNext(cfg, s, s.workers[w], act)])
  }

  predicate Step(cfg: Config, s: State, a: Action, s': State) {
    Enabled(cfg, s, a) && s' == Apply(cfg, s, a)
  }

  /** A constructed scheduler: no thread exists yet and the steady clock reads a positive time. */
  predicate Init(cfg: Config, s: State) {
    && s.sh == Shared([], 0, [], 0, [], 0, 0, false, false)
    && s.accepted == [] && s.unbumped == 0 && s.clock > 0
    && |s.workers| == cfg.numWorkers && AllExited(s)
  }

  ghost predicate IsRun(cfg: Config, states: seq<State>, actions: seq<Action>) {
    && ConfigOk(cfg)
    && |states| == |actions| + 1
    && Init(cfg, states[0])
    && forall k :: 0 <= k < |actions| ==> Step(cfg, states[k], actions[k], states[k + 1])
  }

  /** The state a run has reached. */
  function Last(states: seq<State>): State
    requires states != []
  {
    states[|states| - 1]
  }

  lemma RunPrefix(cfg: Config, states: seq<State>, actions: seq<Action>)
    requires IsRun(cfg, states, actions) && actions != []
    ensures IsRun(cfg, states[..|states| - 1], actions[..|actions| - 1])
    ensures Step(cfg, Last(states[..|states| - 1]), actions[|actions| - 1], Last(states))
  {
    var k := |actions| - 1;
    assert Step(cfg, states[k], actions[k], states[k + 1]);
  }
}
