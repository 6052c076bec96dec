/** How often an aged job can be passed over. Wherever there is a GPU no constant bounds it, and on
    most configurations the number of peers is attained. */
module StarvationBound {
  import opened Totals
  import opened Jobs
  import opened Packing
  import opened Protocol
  import opened Conservation
  import opened Starvation
  import opened StarvationRuns
  import LargestSet
  import Lifecycle
  import Rejection

  // ----- the bound

  /** Rounds that pass `j` over after it has waited an aging interval. */
  function AgedRounds(cfg: Config, states: seq<State>, actions: seq<Action>, j: Job): nat
    requires |states| == |actions| + 1
  {
    Rounds(states, actions, Aged(cfg, j))
  }

  lemma {:induction false} FewerCounted(states: seq<State>, actions: seq<Action>,
                                        some: (State, Action) -> bool, all: (State, Action) -> bool)
    requires |states| == |actions| + 1 && forall s, a :: some(s, a) ==> all(s, a)
    ensures Rounds(states, actions, some) <= Rounds(states, actions, all)
  {
    if actions != [] {
      FewerCounted(states[..|actions|], actions[..|actions| - 1], some, all);
    }
  }

  lemma AgedRoundsWithinBound(cfg: Config, states: seq<State>, actions: seq<Action>, j: Job)
    requires |states| == |actions| + 1
    ensures AgedRounds(cfg, states, actions, j) <= PassedOverRounds(cfg, states, actions, j)
  {
    hide PassedOver;
    hide AgeBucket;
    FewerCounted(states, actions, Aged(cfg, j), PassesOver(cfg, j));
  }

  /** Over any run, the rounds that pass `j` over after it has waited an interval number at most its
      peers. */
  lemma AgedRoundsAreBounded(cfg: Config, states: seq<State>, actions: seq<Action>, j: Job)
    requires IsRun(cfg, states, actions)
    ensures AgedRounds(cfg, states, actions, j) <= Total(Last(states).accepted, Peer(j))
  {
    RunLengths(cfg, states, actions);
    AgedRoundsWithinBound(cfg, states, actions, j);
    StarvationIsBounded(cfg, states, actions, j);
    hide *;
  }

  lemma RunLengths(cfg: Config, states: seq<State>, actions: seq<Action>)
    requires IsRun(cfg, states, actions)
    ensures |states| == |actions| + 1
  {
  }

  // ----- runs that come up to it

  /** The run passes `j` over in `rounds` rounds, in each of them after it has waited an aging
      interval, while the jobs aging lets ahead of it number `peers`. */
  ghost predicate RunStarves(cfg: Config, states: seq<State>, actions: seq<Action>, j: Job, rounds: nat, peers: nat) {
    && IsPlausibleRun(cfg, states, actions) && AgedRounds(cfg, states, actions, j) == rounds
    && Total(Last(states).accepted, Peer(j)) == peers
  }

  /** Some run does so to some job. */
  ghost predicate Starves(cfg: Config, rounds: nat, peers: nat) {
    exists states, actions, j :: RunStarves(cfg, states, actions, j, rounds, peers)
  }

  /** A real product: all dimensions are positive and the footprint is representable. */
  predicate IsProduct(j: Job) {
    j.m > 0 && j.n > 0 && j.k > 0 && j.batch > 0 && Representable(j)
  }

  /** Some run does so to a real product. */
  ghost predicate ProductStarves(cfg: Config, rounds: nat, peers: nat) {
    exists states, actions, j :: IsProduct(j) && RunStarves(cfg, states, actions, j, rounds, peers)
  }

  lemma PlanStarves(p: Plan, s: State, i: nat, batches: seq<seq<Job>>, reserved: nat, rounds: nat)
    returns (states: seq<State>, actions: seq<Action>)
    requires Suits(p) && p.elders == []
    requires Ready(p, s, i, batches, reserved) && Reaches(p.cfg, s, Counted(p), rounds)
    ensures RunStarves(p.cfg, states, actions, Victim(p), rounds, p.others)
  {
    PeersInLine(p);
    hide Suits;
    hide Line;
    hide Victim;
    hide IsRun;
    hide Rounds;
    states, actions :| IsPlausibleRun(p.cfg, states, actions) && Last(states) == s
        && Rounds(states, actions, Counted(p)) == rounds;
  }

  /** `n` rounds of a plan without elders. */
  lemma RowStarves(p: Plan, n: nat) returns (states: seq<State>, actions: seq<Action>)
    requires Suits(p) && p.elders == [] && p.cfg.numWorkers > 0 && p.others == n * p.each
    ensures RunStarves(p.cfg, states, actions, Victim(p), n, p.others)
  {
    var s := ManyRounds(p, n);
    states, actions := PlanStarves(p, s, n * p.each, [], 0, n);
    hide *;
  }

  /** Wherever there is a GPU, a worker and a cap, a job can be passed over in any number of rounds. */
  lemma AnyNumberOfRounds(cfg: Config, n: nat)
    requires ConfigOk(cfg) && cfg.maxBatch > 0 && !cfg.gpuAbsent && cfg.numWorkers > 0
    ensures Starves(cfg, n, n * cfg.maxBatch)
  {
    var p := FreePlan(cfg, 0, n * cfg.maxBatch);
    var states, actions := RowStarves(p, n);
    hide RunStarves;
    hide Suits;
    hide BytesOf;
  }

  /** Jobs without footprint, a whole batch per round. */
  lemma FreePlan(cfg: Config, priority: int32, others: nat) returns (p: Plan)
    requires ConfigOk(cfg) && cfg.maxBatch > 0 && !cfg.gpuAbsent
    ensures Suits(p) && BytesOf(p, p.each) == 0 && p.elders == [] && p.shape.priority == priority
    ensures p.cfg == cfg && p.each == cfg.maxBatch && p.others == others && Base(cfg, p.free) == cfg.fixedBudget
  {
    var shape := Job(0, 1, 0, 0, 0, priority, 0, 0);
    BytesAreExactModuloSize(shape);
    hide BytesRequired;
    p := Plan(cfg, shape, 0, cfg.maxBatch, 0, others, []);
    assert BytesOf(p, p.each) == 0;
    hide BytesOf;
  }

  /** The largest budget of a round. */
  function LargestBudget(cfg: Config): size_t {
    if cfg.fixedBudget > 0 then cfg.fixedBudget
    else if cfg.totalMem > 0 then MaxJobBytes(cfg)
    else if cfg.margin + 1 < SIZE_HALF then SIZE_HALF - 1 - cfg.margin
    else 0
  }

  /** Jobs of `bytes` bytes can be covered by a budget and are not too large for the device. */
  predicate Serves(cfg: Config, bytes: nat) {
    bytes <= LargestBudget(cfg) && (MaxJobBytes(cfg) == 0 || bytes <= MaxJobBytes(cfg))
  }

  /** How many jobs of `bytes` bytes a round takes when it can take the fewest: one where the monitor
      decides, and what cap and budget allow where the budget is fixed. */
  function UnitsPerRound(cfg: Config, bytes: nat): nat
    requires bytes > 0
  {
    if cfg.fixedBudget == 0 then 1
    else if 0 < cfg.maxBatch < cfg.fixedBudget / bytes then cfg.maxBatch
    else cfg.fixedBudget / bytes
  }

  lemma Quotient(total: nat, bytes: nat, n: nat)
    requires bytes > 0 && n <= total / bytes
    ensures n * bytes <= total && total < (total / bytes + 1) * bytes
  {
    assert n * bytes <= (total / bytes) * bytes by {
      assert (total / bytes) * bytes - n * bytes == (total / bytes - n) * bytes;
    }
  }

  lemma AtLeastOnePer(total: nat, bytes: nat)
    requires 0 < bytes <= total
    ensures total / bytes >= 1
  {
  }

  /** Equal jobs of any shape that takes memory and is served, `UnitsPerRound` at a time. */
  lemma UnitPlan(cfg: Config, shape: Job, n: nat) returns (p: Plan)
    requires ConfigOk(cfg) && !cfg.gpuAbsent && BytesRequired(shape) > 0 && Serves(cfg, BytesRequired(shape))
    ensures Suits(p) && p.cfg == cfg && p.shape == shape && p.elders == []
    ensures p.each == UnitsPerRound(cfg, BytesRequired(shape)) && p.others == n * p.each
    ensures Base(cfg, p.free) == (if cfg.fixedBudget > 0 then cfg.fixedBudget else BytesRequired(shape))
  {
    hide BytesRequired;
    var bytes := BytesRequired(shape);
    var each := UnitsPerRound(cfg, bytes);
    var free: size_t := if cfg.fixedBudget > 0 then 0 else cfg.margin + bytes;
    p := Plan(cfg, shape, bytes, each, free, n * each, []);
    if cfg.fixedBudget > 0 {
      AtLeastOnePer(cfg.fixedBudget, bytes);
      Quotient(cfg.fixedBudget, bytes, each);
      assert BytesOf(p, each) <= cfg.fixedBudget;
      assert each == cfg.maxBatch || BytesOf(p, each + 1) > cfg.fixedBudget;
    } else {
      assert BytesOf(p, 1) == bytes && BytesOf(p, 2) == 2 * bytes;
    }
    hide BytesOf;
  }

  function UnitProduct(): Job {
    Job(0, 1, 1, 1, 1, 0, 0, 0)
  }

  lemma UnitProductBytes(j: Job)
    requires j.m == 1 && j.n == 1 && j.k == 1 && j.batch == 1
    ensures BytesRequired(j) == 12 && IsProduct(j)
  {
    BytesAreExactModuloSize(j);
    hide BytesRequired;
  }

  lemma VictimShape(p: Plan)
    ensures p.elders == [] ==> SameShape(Victim(p), p.shape)
  {
  }

  /** Wherever there is a GPU and a worker and some budget covers a product of single elements, such a
      product can be passed over in any number of rounds, cap or no cap. Where the monitor decides,
      as by default, these are as many rounds as it has peers. */
  lemma ProductsStarve(cfg: Config, n: nat)
    requires ConfigOk(cfg) && !cfg.gpuAbsent && cfg.numWorkers > 0 && Serves(cfg, 12)
    ensures ProductStarves(cfg, n, n * UnitsPerRound(cfg, 12))
  {
    UnitProductBytes(UnitProduct());
    hide BytesRequired;
    var p := UnitPlan(cfg, UnitProduct(), n);
    hide Suits;
    hide Base;
    hide Serves;
    var states, actions := RowStarves(p, n);
    VictimShape(p);
    UnitProductBytes(Victim(p));
    hide Victim;
    hide RunStarves;
    hide UnitsPerRound;
  }

  /** A round can be filled by a single job: the cap is one, or the monitor's budget or the fixed
      one can be used up by one job that is not too large for the device. */
  predicate OneFillsARound(cfg: Config) {
    || cfg.maxBatch == 1
    || (cfg.fixedBudget == 0 && Serves(cfg, 4))
    || (cfg.fixedBudget >= 4 && Serves(cfg, cfg.fixedBudget))
  }

  /** There the bound by the number of peers is attained, for every number. */
  lemma BoundIsAttained(cfg: Config, n: nat)
    requires ConfigOk(cfg) && !cfg.gpuAbsent && cfg.numWorkers > 0 && OneFillsARound(cfg)
    ensures Starves(cfg, n, n)
  {
    var p := PlanForOne(cfg, n);
    hide Suits;
    hide OneFillsARound;
    var states, actions := RowStarves(p, n);
    hide RunStarves;
  }

  lemma PlanForOne(cfg: Config, n: nat) returns (p: Plan)
    requires ConfigOk(cfg) && !cfg.gpuAbsent && OneFillsARound(cfg)
    ensures Suits(p) && p.elders == [] && p.cfg == cfg && p.each == 1 && p.others == n
  {
    hide BytesRequired;
    if cfg.maxBatch == 1 {
      p := FreePlan(cfg, 0, n);
    } else if cfg.fixedBudget == 0 {
      LargestSet.PieceBytes(0, 1, 1, 1, 1);
      hide Suits;
      p := UnitPlan(cfg, LargestSet.Piece(0, 1, 1, 1, 1), n);
    } else {
      var k, batch := LargestSet.HalfBudget(2 * cfg.fixedBudget);
      var size := k * batch;
      assert 1 * size == size;
      LargestSet.PieceBytes(0, 1, k, batch, 1);
      p := Plan(cfg, LargestSet.Piece(0, 1, k, batch, 1), 4 * size, 1, 0, n, []);
      assert 2 * (4 * size) == 8 * size;
    }
  }

  // ----- where one round is all

  /** No reading is above the device size, or readings do not matter. */
  ghost predicate KnownBudgets(cfg: Config, actions: seq<Action>) {
    cfg.fixedBudget > 0 || forall k :: 0 <= k < |actions| ==> Plausible(cfg, actions[k])
  }

  /** No budget the dispatcher holds is above the largest. */
  predicate WithinLargest(cfg: Config, d: DPc) {
    match d
    case ReadLedger(_, base) => base <= LargestBudget(cfg)
    case Packing(_, budget) => budget <= LargestBudget(cfg)
    case _ => true
  }

  lemma BudgetStep(cfg: Config, s: State, a: Action, s': State)
    requires Step(cfg, s, a, s') && WithinLargest(cfg, s.disp) && ConfigOk(cfg)
    requires cfg.fixedBudget > 0 || Plausible(cfg, a)
    ensures WithinLargest(cfg, s'.disp)
  {
    hide BytesRequired;
    hide Pack;
    hide DrainOrder;
    hide Oversized;
    hide Fitting;
    hide RowsOf;
    hide WorkerShared;
    hide WorkerNext;
  }

  lemma {:induction false} BudgetIsBounded(cfg: Config, states: seq<State>, actions: seq<Action>)
    requires IsRun(cfg, states, actions) && KnownBudgets(cfg, actions)
    ensures WithinLargest(cfg, Last(states).disp)
    decreases |actions|
  {
    hide Step;
    hide Plausible;
    hide LargestBudget;
    if actions != [] {
      RunPrefix(cfg, states, actions);
      var prefix := states[..|states| - 1];
      BudgetIsBounded(cfg, prefix, actions[..|actions| - 1]);
      BudgetStep(cfg, Last(prefix), actions[|actions| - 1], Last(states));
    }
  }

  /** A candidate that is passed over is served, or takes no memory and there is a cap. */
  lemma PassedOverIsServed(cfg: Config, states: seq<State>, actions: seq<Action>, a: Action, j: Job)
    requires IsRun(cfg, states, actions) && KnownBudgets(cfg, actions) && PassedOver(cfg, Last(states), a, j)
    ensures Serves(cfg, BytesRequired(j)) && (BytesRequired(j) == 0 ==> cfg.maxBatch > 0)
  {
    hide BytesRequired;
    BudgetIsBounded(cfg, states, actions);
    Rejection.OversizedAreNeverPacked(cfg, states, actions);
    NothingBadInFlight(cfg, states, actions, j.seqNo);
    var s := Last(states);
    hide IsRun;
    hide KnownBudgets;
    hide LargestBudget;
    if BytesRequired(j) == 0 {
      FreeNeedsCap(cfg, s, a, j);
    }
    hide Load;
    hide Pack;
    hide MaxJobBytes;
  }

  lemma FreeNeedsCap(cfg: Config, s: State, a: Action, j: Job)
    requires PassedOver(cfg, s, a, j) && BytesRequired(j) == 0 && Load(s, BadStamp(s.clock)) == 0
    ensures cfg.maxBatch > 0
  {
    hide BytesRequired;
    hide Pack;
    StampsArePast(s);
    PassedOverForABatch(s.disp.cands, s.disp.budget, cfg.maxBatch, s.clock, j);
  }

  /** So a job that is not served is never passed over, and where there is no cap one without
      footprint neither. */
  lemma {:induction false} NeverPassedOver(cfg: Config, states: seq<State>, actions: seq<Action>, j: Job)
    requires IsRun(cfg, states, actions) && KnownBudgets(cfg, actions)
    requires !Serves(cfg, BytesRequired(j)) || (BytesRequired(j) == 0 && cfg.maxBatch <= 0)
    ensures PassedOverRounds(cfg, states, actions, j) == 0
    decreases |actions|
  {
    hide BytesRequired;
    hide PassedOver;
    hide Serves;
    hide Plausible;
    if actions != [] {
      var k := |actions| - 1;
      RunPrefix(cfg, states, actions);
      var prefix := states[..|states| - 1];
      assert prefix == states[..k + 1];
      NeverPassedOver(cfg, prefix, actions[..k], j);
      if PassedOver(cfg, Last(prefix), actions[k], j) {
        PassedOverIsServed(cfg, prefix, actions[..k], actions[k], j);
      }
      hide IsRun;
    }
  }

  /** With a fixed budget below one element the bound is the number of peers divided by the cap, and
      `AnyNumberOfRounds` attains it. */
  lemma TinyBudgetBound(cfg: Config, states: seq<State>, actions: seq<Action>, j: Job)
    requires IsRun(cfg, states, actions) && cfg.maxBatch > 0 && 0 < cfg.fixedBudget < 4
    ensures PassedOverRounds(cfg, states, actions, j) * cfg.maxBatch <= Total(Last(states).accepted, Peer(j))
  {
    hide PassedOverRounds;
    hide BytesRequired;
    hide IsRun;
    hide Total;
    RunLengths(cfg, states, actions);
    LargestSet.BytesAreMultiples(j);
    if BytesRequired(j) == 0 {
      assert PeersPerRound(cfg, j) == cfg.maxBatch;
      hide PeersPerRound;
      StarvationIsBounded(cfg, states, actions, j);
    } else {
      NeverPassedOver(cfg, states, actions, j);
      assert 0 * cfg.maxBatch == 0;
    }
  }

  lemma {:induction false} NoRoundsWithoutGpu(cfg: Config, states: seq<State>, actions: seq<Action>, j: Job)
    requires IsRun(cfg, states, actions) && cfg.gpuAbsent
    ensures PassedOverRounds(cfg, states, actions, j) == 0
    decreases |actions|
  {
    hide Step;
    hide Pack;
    if actions != [] {
      var k := |actions| - 1;
      RunPrefix(cfg, states, actions);
      assert states[..|states| - 1] == states[..k + 1];
      Lifecycle.NothingPackedWithoutGpu(cfg, states[..k + 1], actions[..k]);
      NoRoundsWithoutGpu(cfg, states[..k + 1], actions[..k], j);
      hide IsRun;
    }
  }

  /** One round without footprint leaves nothing reserved. */
  lemma FreeRound(p: Plan, s: State, i: nat, batches: seq<seq<Job>>, rounds: nat)
    returns (s': State, more: seq<seq<Job>>)
    requires Suits(p) && BytesOf(p, p.each) == 0 && i + p.each <= p.others
    requires |batches| < MaxQueueDepth(p.cfg) && Ready(p, s, i, batches, 0) && Reaches(p.cfg, s, Counted(p), rounds)
    ensures |more| == |batches| + 1 && Ready(p, s', i + p.each, more, 0)
    ensures Reaches(p.cfg, s', Counted(p), rounds + 1)
  {
    hide *;
    RowGoesOn(p, i);
    s' := Round(p, s, i, batches, rounds);
    more := batches + [From(p, i)[..p.each]];
  }

  /** Two rounds need no worker. */
  lemma TwoRounds(cfg: Config)
    requires ConfigOk(cfg) && cfg.maxBatch > 0 && !cfg.gpuAbsent
    ensures Starves(cfg, 2, 2 * cfg.maxBatch)
  {
    hide Suits;
    hide Ready;
    hide Reaches;
    hide BytesOf;
    hide RunStarves;
    var p := FreePlan(cfg, 0, 2 * cfg.maxBatch);
    CountedPacks(p);
    hide OnlyPacking;
    hide Counted;
    var s0 := LineStarts(p, Counted(p));
    var s1, b1 := FreeRound(p, s0, 0, [], 0);
    var s2, b2 := FreeRound(p, s1, 0 + p.each, b1, 1);
    var states, actions := PlanStarves(p, s2, 0 + p.each + p.each, b2, 0, 2);
  }

  /** The comment that aging bounds starvation at about one interval and one packing round: no run
      passes any job over in more than one round whose budget covers it, once it has waited an
      interval, exactly on hosts without a GPU, where there are no packing rounds. */
  lemma OneRoundBoundIff(cfg: Config)
    requires ConfigOk(cfg) && cfg.maxBatch > 0
    ensures (forall states, actions, j :: IsRun(cfg, states, actions) ==> AgedRounds(cfg, states, actions, j) <= 1)
            <==> cfg.gpuAbsent
  {
    hide AgedRounds;
    hide PassedOverRounds;
    hide Step;
    if cfg.gpuAbsent {
      forall states, actions, j | IsRun(cfg, states, actions)
        ensures |states| == |actions| + 1 && AgedRounds(cfg, states, actions, j) <= 1
      {
        RunLengths(cfg, states, actions);
        NoRoundsWithoutGpu(cfg, states, actions, j);
        AgedRoundsWithinBound(cfg, states, actions, j);
      }
    } else {
      TwoRounds(cfg);
      var states, actions, j :| RunStarves(cfg, states, actions, j, 2, 2 * cfg.maxBatch);
      assert !(AgedRounds(cfg, states, actions, j) <= 1);
    }
  }

  /** Where the budgets allow no job of one element, and there is no cap, no job is passed over. */
  lemma UncappedRounds(cfg: Config, states: seq<State>, actions: seq<Action>, j: Job)
    requires IsPlausibleRun(cfg, states, actions) && cfg.maxBatch <= 0 && (cfg.gpuAbsent || !Serves(cfg, 4))
    ensures AgedRounds(cfg, states, actions, j) == 0
  {
    hide BytesRequired;
    hide PassedOverRounds;
    LargestSet.BytesAreMultiples(j);
    AgedRoundsWithinBound(cfg, states, actions, j);
    if cfg.gpuAbsent {
      NoRoundsWithoutGpu(cfg, states, actions, j);
    } else {
      NeverPassedOver(cfg, states, actions, j);
    }
    hide AgedRounds;
    hide IsRun;
  }

  /** Without a cap the comment holds exactly where there is no GPU or no budget covers one element. */
  lemma UncappedBoundIff(cfg: Config)
    requires ConfigOk(cfg) && cfg.maxBatch <= 0 && cfg.numWorkers > 0
    ensures (forall states, actions, j :: IsPlausibleRun(cfg, states, actions) ==>
               AgedRounds(cfg, states, actions, j) <= 1)
            <==> cfg.gpuAbsent || !Serves(cfg, 4)
  {
    hide AgedRounds;
    hide Step;
    hide Serves;
    hide Plausible;
    if cfg.gpuAbsent || !Serves(cfg, 4) {
      forall states, actions, j | IsPlausibleRun(cfg, states, actions)
        ensures |states| == |actions| + 1 && AgedRounds(cfg, states, actions, j) <= 1
      {
        UncappedRounds(cfg, states, actions, j);
      }
    } else {
      ElementsStarve(cfg);
      var states, actions, j :| IsPlausibleRun(cfg, states, actions) && AgedRounds(cfg, states, actions, j) == 2;
      assert !(AgedRounds(cfg, states, actions, j) <= 1);
    }
  }

  lemma ElementsStarve(cfg: Config)
    requires ConfigOk(cfg) && !cfg.gpuAbsent && cfg.numWorkers > 0 && Serves(cfg, 4)
    ensures exists states, actions, j ::
              IsPlausibleRun(cfg, states, actions) && AgedRounds(cfg, states, actions, j) == 2
  {
    LargestSet.PieceBytes(0, 1, 1, 1, 1);
    hide BytesRequired;
    var p := UnitPlan(cfg, LargestSet.Piece(0, 1, 1, 1, 1), 2);
    hide Suits;
    hide Serves;
    hide IsPlausibleRun;
    hide AgedRounds;
    hide Victim;
    var states, actions := RowStarves(p, 2);
  }

  lemma {:induction false} ProductBytes(j: Job)
    requires IsProduct(j)
    ensures BytesRequired(j) >= 12
  {
    BytesAreExactModuloSize(j);
    hide BytesRequired;
    AtLeastOne(j.m, j.k);
    AtLeastOne(j.k, j.n);
    AtLeastOne(j.m, j.n);
    AtLeastThree(j.m * j.k + j.k * j.n + j.m * j.n, j.batch);
  }

  lemma AtLeastOne(x: int, y: int)
    requires x > 0 && y > 0
    ensures x * y >= 1
  {
  }

  lemma AtLeastThree(x: int, y: int)
    requires x >= 3 && y > 0
    ensures x * y >= 3
  {
    assert x * y - x == x * (y - 1) >= 0;
  }

  lemma UnservedProductRounds(cfg: Config, states: seq<State>, actions: seq<Action>, j: Job)
    requires IsPlausibleRun(cfg, states, actions) && IsProduct(j) && (cfg.gpuAbsent || !Serves(cfg, 12))
    ensures AgedRounds(cfg, states, actions, j) == 0
  {
    hide BytesRequired;
    hide PassedOverRounds;
    ProductBytes(j);
    hide IsProduct;
    AgedRoundsWithinBound(cfg, states, actions, j);
    if cfg.gpuAbsent {
      NoRoundsWithoutGpu(cfg, states, actions, j);
    } else {
      NeverPassedOver(cfg, states, actions, j);
    }
    hide AgedRounds;
    hide IsRun;
  }

  /** Of real products the comment holds exactly where there is no GPU or no budget covers the smallest,
      whatever the cap. */
  lemma ProductBoundIff(cfg: Config)
    requires ConfigOk(cfg) && cfg.numWorkers > 0
    ensures (forall states, actions, j :: IsPlausibleRun(cfg, states, actions) && IsProduct(j) ==>
               AgedRounds(cfg, states, actions, j) <= 1)
            <==> cfg.gpuAbsent || !Serves(cfg, 12)
  {
    hide AgedRounds;
    hide Step;
    hide Serves;
    hide Plausible;
    hide IsProduct;
    if cfg.gpuAbsent || !Serves(cfg, 12) {
      forall states, actions, j | IsPlausibleRun(cfg, states, actions) && IsProduct(j)
        ensures |states| == |actions| + 1 && AgedRounds(cfg, states, actions, j) <= 1
      {
        UnservedProductRounds(cfg, states, actions, j);
      }
    } else {
      ProductsStarve(cfg, 2);
      var states, actions, j :| IsProduct(j) && RunStarves(cfg, states, actions, j, 2, 2 * UnitsPerRound(cfg, 12));
      assert !(AgedRounds(cfg, states, actions, j) <= 1);
    }
  }

  // ----- jobs no round covers

  /** There is a run in which a job of that shape and priority, after it has waited an aging interval,
      is a candidate in `rounds` rounds and is left behind in each of them for jobs submitted at least
      an interval after it, while it has no peers at all. */
  ghost predicate IsOutrun(cfg: Config, shape: Job, rounds: nat) {
    exists states, actions, j ::
      && IsPlausibleRun(cfg, states, actions) && SameShape(j, shape)
      && Rounds(states, actions, Outruns(cfg, j)) == rounds
      && Total(Last(states).accepted, Peer(j)) == 0
  }

  /** A plan with an elder of that shape. */
  lemma ElderStarves(p: Plan, shape: Job, n: nat)
    requires Suits(p) && |p.elders| == 1 && SameShape(p.elders[0], shape)
    requires p.cfg.numWorkers > 0 && p.others == n * p.each
    ensures IsOutrun(p.cfg, shape, n)
  {
    hide BytesRequired;
    var s := ManyRounds(p, n);
    PeersInLine(p);
    hide Suits;
    hide Line;
    hide IsRun;
    hide Rounds;
    var states, actions :| IsPlausibleRun(p.cfg, states, actions) && Last(states) == s
        && Rounds(states, actions, Counted(p)) == n;
  }

  /** Aging does not keep large jobs from starving. Wherever there is a GPU and a worker and some budget
      covers a product of single elements, every job that the device can serve and that is larger than
      a budget the rounds may have, the fixed one or, with the monitor, that of one such product,
      waits for any number of rounds behind products submitted after it had waited an interval. */
  lemma LargeJobsAreOutrun(cfg: Config, shape: Job, n: nat)
    requires ConfigOk(cfg) && !cfg.gpuAbsent && cfg.numWorkers > 0 && Serves(cfg, 12)
    requires BytesRequired(shape) > (if cfg.fixedBudget > 0 then cfg.fixedBudget else 12)
    requires MaxJobBytes(cfg) > 0 ==> BytesRequired(shape) <= MaxJobBytes(cfg)
    ensures IsOutrun(cfg, shape, n)
  {
    var young := UnitProduct().(priority := shape.priority);
    UnitProductBytes(young);
    hide BytesRequired;
    var q := UnitPlan(cfg, young, n);
    var p := WithElder(q, shape);
    hide *;
    ElderStarves(p, shape, n);
  }

  lemma WithElder(q: Plan, shape: Job) returns (p: Plan)
    requires Suits(q) && q.shape.priority == shape.priority && BytesRequired(shape) > Base(q.cfg, q.free)
    requires MaxJobBytes(q.cfg) > 0 ==> BytesRequired(shape) <= MaxJobBytes(q.cfg)
    ensures Suits(p) && |p.elders| == 1 && SameShape(p.elders[0], shape)
    ensures p.cfg == q.cfg && p.each == q.each && p.others == q.others
  {
    var elder := shape.(submitTime := 1, seqNo := 0);
    ShapeFixesBytes(elder, shape);
    hide BytesRequired;
    hide Base;
    hide MaxJobBytes;
    hide Plausible;
    p := q.(elders := [elder]);
    assert IsElder(p, elder);
    assert forall n :: BytesOf(p, n) == BytesOf(q, n);
    hide BytesOf;
  }

  /** A job without footprint gives way to a full batch of its peers only. */
  lemma FreeIsNotOutrun(cfg: Config, s: State, a: Action, j: Job)
    requires BytesRequired(j) == 0 && Load(s, BadStamp(s.clock)) == 0
    ensures !Outrun(cfg, s, a, j)
  {
    hide BytesRequired;
    hide Pack;
    hide AgeBucket;
    if Outrun(cfg, s, a, j) {
      StampsArePast(s);
      PassedOverForABatch(s.disp.cands, s.disp.budget, cfg.maxBatch, s.clock, j);
    }
  }

  lemma {:induction false} FreeNeverOutrun(cfg: Config, states: seq<State>, actions: seq<Action>, j: Job)
    requires IsRun(cfg, states, actions) && BytesRequired(j) == 0
    ensures Rounds(states, actions, Outruns(cfg, j)) == 0
    decreases |actions|
  {
    hide BytesRequired;
    hide Outrun;
    hide Step;
    if actions != [] {
      RunPrefix(cfg, states, actions);
      var prefix := states[..|states| - 1];
      assert prefix == states[..|actions|];
      FreeNeverOutrun(cfg, prefix, actions[..|actions| - 1], j);
      NothingBadInFlight(cfg, prefix, actions[..|actions| - 1], j.seqNo);
      hide Load;
      FreeIsNotOutrun(cfg, Last(prefix), actions[|actions| - 1], j);
      hide IsRun;
    }
  }

  /** With the monitor, as by default, a job that the device can serve can be left behind in this way
      for any number of rounds exactly if it takes memory at all. */
  lemma OutrunIff(cfg: Config, shape: Job)
    requires ConfigOk(cfg) && !cfg.gpuAbsent && cfg.numWorkers > 0 && cfg.maxBatch > 0 && cfg.fixedBudget == 0
    requires MaxJobBytes(cfg) > 0 ==> BytesRequired(shape) <= MaxJobBytes(cfg)
    ensures (forall n: nat :: IsOutrun(cfg, shape, n)) <==> BytesRequired(shape) > 0
  {
    hide BytesRequired;
    hide MaxJobBytes;
    if BytesRequired(shape) > 0 {
      forall n: nat ensures IsOutrun(cfg, shape, n) {
        var q := FreePlan(cfg, shape.priority, n * cfg.maxBatch);
        var p := WithElder(q, shape);
        hide *;
        ElderStarves(p, shape, n);
      }
    } else {
      NotOnceOutrun(cfg, shape);
    }
    hide IsOutrun;
  }

  lemma NotOnceOutrun(cfg: Config, shape: Job)
    requires BytesRequired(shape) == 0
    ensures !IsOutrun(cfg, shape, 1)
  {
    hide BytesRequired;
    hide Rounds;
    forall states, actions, j | IsPlausibleRun(cfg, states, actions) && SameShape(j, shape)
      ensures |states| == |actions| + 1 && Rounds(states, actions, Outruns(cfg, j)) == 0
    {
      ShapeFixesBytes(j, shape);
      FreeNeverOutrun(cfg, states, actions, j);
      hide Step;
    }
    hide IsPlausibleRun;
    hide SameShape;
  }
}
