/** Runs in which an aged job is passed over again and again: a row of equal jobs is packed `each` at
    a time while one job waits, either the last of the row or an elder too large for the rounds. */
module StarvationRuns {
  import opened Totals
  import opened Sorting
  import opened Jobs
  import opened Packing
  import opened Protocol
  import opened Starvation
  import opened WorkerRounds

  // ----- rounds after an aging interval

  /** `j` is passed over although it has waited at least one aging interval. */
  predicate AgedPass(cfg: Config, s: State, a: Action, j: Job) {
    PassedOver(cfg, s, a, j) && AgeBucket(s.clock, j) >= 1
  }

  function Aged(cfg: Config, j: Job): (State, Action) -> bool {
    (s: State, a: Action) => AgedPass(cfg, s, a, j)
  }

  /** A packing round in which the candidate `j`, although it has waited at least one aging interval,
      is left behind for a job that was submitted when `j` had already done so. */
  predicate Outrun(cfg: Config, s: State, a: Action, j: Job) {
    && a.Disp? && s.disp.Packing?
    && j in s.disp.cands && AgeBucket(s.clock, j) >= 1
    && var selected := Pack(s.disp.cands, s.disp.budget, cfg.maxBatch, s.clock).selected;
       j !in selected && exists c :: c in selected && c.submitTime >= j.submitTime + AGING_INTERVAL_NS
  }

  function Outruns(cfg: Config, j: Job): (State, Action) -> bool {
    (s: State, a: Action) => Outrun(cfg, s, a, j)
  }

  /** The monitor reports no more free memory than the device has, if its size is known. */
  predicate Plausible(cfg: Config, a: Action) {
    a.Disp? && cfg.totalMem > 0 ==> a.free <= cfg.totalMem
  }

  ghost predicate IsPlausibleRun(cfg: Config, states: seq<State>, actions: seq<Action>) {
    IsRun(cfg, states, actions) && forall k :: 0 <= k < |actions| ==> Plausible(cfg, actions[k])
  }

  /** `s` ends a run with `rounds` steps that `counted` holds of. */
  ghost predicate Reaches(cfg: Config, s: State, counted: (State, Action) -> bool, rounds: nat) {
    exists states, actions ::
      IsPlausibleRun(cfg, states, actions) && Last(states) == s && Rounds(states, actions, counted) == rounds
  }

  lemma ReachStep(cfg: Config, s: State, a: Action, s': State, counted: (State, Action) -> bool, rounds: nat)
    requires Reaches(cfg, s, counted, rounds) && Step(cfg, s, a, s') && Plausible(cfg, a)
    ensures Reaches(cfg, s', counted, rounds + (if counted(s, a) then 1 else 0))
  {
    hide Step;
    var states, actions :| IsPlausibleRun(cfg, states, actions) && Last(states) == s
        && Rounds(states, actions, counted) == rounds;
    var states', actions' := states + [s'], actions + [a];
    forall k | 0 <= k < |actions'| ensures Step(cfg, states'[k], actions'[k], states'[k + 1]) {
      if k < |actions| {
        assert Step(cfg, states[k], actions[k], states[k + 1]);
      }
    }
    assert states'[..|actions| + 1] == states && actions'[..|actions|] == actions;
    assert IsPlausibleRun(cfg, states', actions') && Last(states') == s';
  }

  /** Only packing steps are counted. */
  ghost predicate OnlyPacking(counted: (State, Action) -> bool) {
    forall s, a :: counted(s, a) ==> a.Disp? && s.disp.Packing?
  }

  /** A step of another kind than packing. */
  lemma QuietStep(cfg: Config, s: State, a: Action, s': State, counted: (State, Action) -> bool, rounds: nat)
    requires Reaches(cfg, s, counted, rounds) && Step(cfg, s, a, s') && Plausible(cfg, a) && OnlyPacking(counted)
    requires a.Disp? ==> !s.disp.Packing?
    ensures Reaches(cfg, s', counted, rounds)
  {
    hide Reaches;
    hide Step;
    hide Plausible;
    ReachStep(cfg, s, a, s', counted, rounds);
  }

  /** A dispatcher step that is not packing. */
  lemma Dispatch(cfg: Config, s: State, free: size_t, counted: (State, Action) -> bool, rounds: nat)
    returns (s': State)
    requires Reaches(cfg, s, counted, rounds) && DispEnabled(cfg, s, free) && !s.disp.Packing?
    requires Plausible(cfg, Disp(free)) && OnlyPacking(counted)
    ensures s' == DispApply(cfg, s, free) && Reaches(cfg, s', counted, rounds)
  {
    hide Reaches;
    hide DispApply;
    hide OnlyPacking;
    hide Plausible;
    s' := DispApply(cfg, s, free);
    QuietStep(cfg, s, Disp(free), s', counted, rounds);
  }

  lemma {:induction false} WorkReaches(cfg: Config, s: State, w: nat, acts: seq<WAct>,
                                       counted: (State, Action) -> bool, rounds: nat)
    requires Reaches(cfg, s, counted, rounds) && w < |s.workers| && WorkPath(cfg, s, w, acts) && OnlyPacking(counted)
    ensures Reaches(cfg, WorkIterate(cfg, s, w, acts), counted, rounds)
    decreases |acts|
  {
    hide Reaches;
    hide WorkerShared;
    hide WorkerNext;
    hide WorkEnabled;
    hide OnlyPacking;
    if acts != [] {
      var front, act := acts[..|acts| - 1], acts[|acts| - 1];
      PathFront(cfg, s, w, acts);
      hide WorkPath;
      WorkReaches(cfg, s, w, front, counted, rounds);
      QuietStep(cfg, WorkIterate(cfg, s, w, front), Work(w, act), WorkIterate(cfg, s, w, acts), counted, rounds);
    }
  }

  // ----- the row

  /** Jobs 0, ..., others of one shape and size, submitted together and packed `each` at a time when
      the monitor reports `free` and nothing is reserved. Without elders the last of the row is the job
      that waits; with an elder it is the elder, and the row arrives later. */
  datatype Plan = Plan(cfg: Config, shape: Job, bytes: nat, each: nat, free: size_t, others: nat, elders: seq<Job>)

  const LATER: int := 1 + 2 * AGING_INTERVAL_NS

  /** The budget of a round in which nothing is reserved. */
  function Base(cfg: Config, free: size_t): size_t {
    if cfg.fixedBudget > 0 then cfg.fixedBudget else if free <= cfg.margin then 0 else free - cfg.margin
  }

  /** Bytes of `n` jobs of the row. */
  function BytesOf(p: Plan, n: nat): nat {
    n * p.bytes
  }

  lemma BytesOfStep(p: Plan, n: nat)
    ensures BytesOf(p, 0) == 0 && BytesOf(p, n + 1) == BytesOf(p, n) + p.bytes
  {
  }

  lemma BytesOfGrows(p: Plan, n: nat, m: nat)
    requires n <= m
    ensures BytesOf(p, n) <= BytesOf(p, m)
  {
    assert m * p.bytes - n * p.bytes == (m - n) * p.bytes;
  }

  /** No round of the plan covers the elder, and the device could serve it. */
  predicate IsElder(p: Plan, e: Job) {
    && e.seqNo == 0 && e.submitTime == 1 && e.priority == p.shape.priority
    && BytesRequired(e) > Base(p.cfg, p.free)
    && (MaxJobBytes(p.cfg) > 0 ==> BytesRequired(e) <= MaxJobBytes(p.cfg))
  }

  /** `each` jobs of the row fit cap and budget, and one more does not. */
  predicate Suits(p: Plan) {
    && ConfigOk(p.cfg) && !p.cfg.gpuAbsent && p.free < SIZE_HALF && Plausible(p.cfg, Disp(p.free))
    && p.bytes == BytesRequired(p.shape)
    && 1 <= p.each && (p.cfg.maxBatch > 0 ==> p.each <= p.cfg.maxBatch) && BytesOf(p, p.each) <= Base(p.cfg, p.free)
    && (p.each == p.cfg.maxBatch || BytesOf(p, p.each + 1) > Base(p.cfg, p.free))
    && (MaxJobBytes(p.cfg) > 0 ==> p.bytes <= MaxJobBytes(p.cfg))
    && |p.elders| <= 1 && (p.elders != [] ==> IsElder(p, p.elders[0]))
  }

  /** When the row is submitted. */
  function Arrival(p: Plan): int {
    if p.elders == [] then 1 else LATER
  }

  function Twin(p: Plan, i: nat): Job {
    p.shape.(submitTime := Arrival(p), seqNo := |p.elders| + i)
  }

  /** Jobs i, ..., others of the row. */
  function From(p: Plan, i: nat): seq<Job>
    requires i <= p.others + 1
  {
    seq(p.others + 1 - i, x requires 0 <= x => Twin(p, i + x))
  }

  /** What is queued once the first `i` jobs of the row are gone. */
  function Line(p: Plan, i: nat): seq<Job>
    requires i <= p.others + 1
  {
    p.elders + From(p, i)
  }

  function Victim(p: Plan): Job {
    if p.elders == [] then Twin(p, p.others) else p.elders[0]
  }

  function Counted(p: Plan): (State, Action) -> bool {
    if p.elders == [] then Aged(p.cfg, Victim(p)) else Outruns(p.cfg, Victim(p))
  }

  lemma CountedPacks(p: Plan)
    ensures OnlyPacking(Counted(p))
  {
    hide Pack;
    hide BytesRequired;
    hide AgeBucket;
    hide Victim;
  }

  lemma OneFits(p: Plan)
    requires Suits(p)
    ensures p.bytes <= BytesOf(p, p.each) <= Base(p.cfg, p.free) < SIZE_HALF
  {
    hide BytesRequired;
    BytesOfStep(p, 0);
    BytesOfGrows(p, 1, p.each);
    hide BytesOf;
  }

  lemma TwinFacts(p: Plan, i: nat)
    requires Suits(p)
    ensures BytesRequired(Twin(p, i)) == p.bytes <= Base(p.cfg, p.free)
    ensures AgeBucket(LATER, Twin(p, i)) == (if p.elders == [] then 2 else 0)
  {
    hide BytesRequired;
    OneFits(p);
    hide BytesOf;
    hide Base;
    ShapeFixesBytes(Twin(p, i), p.shape);
  }

  lemma ElderFacts(p: Plan)
    requires Suits(p) && p.elders != []
    ensures var e := p.elders[0];
            && p.elders == [e] && IsElder(p, e) && AgeBucket(LATER, e) == 2
  {
    hide BytesRequired;
    hide BytesOf;
    hide Base;
  }

  lemma TwinOrder(p: Plan, i: nat, k: nat)
    requires Suits(p) && i < k
    ensures !PopsBefore()(Twin(p, k), Twin(p, i)) && !PacksBefore(LATER)(Twin(p, k), Twin(p, i))
  {
    TwinFacts(p, i);
    TwinFacts(p, k);
    hide BytesRequired;
    hide AgeBucket;
    hide Suits;
  }

  lemma ElderOrder(p: Plan, i: nat)
    requires Suits(p) && p.elders != []
    ensures !PopsBefore()(Twin(p, i), p.elders[0]) && !PacksBefore(LATER)(Twin(p, i), p.elders[0])
  {
    TwinFacts(p, i);
    ElderFacts(p);
    hide BytesRequired;
    hide AgeBucket;
    hide Suits;
    hide Base;
  }

  lemma {:induction false} SortOfOrdered(s: seq<Job>, less: (Job, Job) -> bool)
    requires forall i :: 0 < i < |s| ==> !less(s[i], s[i - 1])
    ensures SortBy(s, less) == s
  {
    if s != [] {
      SortOfOrdered(s[1..], less);
      assert s == [s[0]] + s[1..];
    }
  }

  /** The two places a job of the line can be in. */
  lemma LineAt(p: Plan, i: nat, x: nat)
    requires Suits(p) && i <= p.others && x < |Line(p, i)|
    ensures |p.elders| <= x ==> Line(p, i)[x] == Twin(p, i + (x - |p.elders|))
    ensures x < |p.elders| ==> x == 0 && Line(p, i)[x] == p.elders[0]
  {
    hide Twin;
    hide IsElder;
    hide BytesRequired;
    hide BytesOf;
    hide Base;
  }

  lemma LineInOrder(p: Plan, i: nat, x: nat)
    requires Suits(p) && i <= p.others && 0 < x < |Line(p, i)|
    ensures !PopsBefore()(Line(p, i)[x], Line(p, i)[x - 1])
    ensures !PacksBefore(LATER)(Line(p, i)[x], Line(p, i)[x - 1])
  {
    LineAt(p, i, x);
    LineAt(p, i, x - 1);
    if x - 1 < |p.elders| {
      ElderOrder(p, i + (x - |p.elders|));
    } else {
      TwinOrder(p, i + (x - 1 - |p.elders|), i + (x - |p.elders|));
    }
    hide *;
  }

  lemma LineIsOrdered(p: Plan, i: nat)
    requires Suits(p) && i <= p.others
    ensures DrainOrder(Line(p, i)) == Line(p, i) && Sorted(Line(p, i), LATER) == Line(p, i)
  {
    hide Suits;
    hide Line;
    var s := Line(p, i);
    forall x | 0 < x < |s| ensures !PopsBefore()(s[x], s[x - 1]) && !PacksBefore(LATER)(s[x], s[x - 1]) {
      LineInOrder(p, i, x);
      hide *;
    }
    SortOfOrdered(s, PopsBefore());
    SortOfOrdered(s, PacksBefore(LATER));
    hide PopsBefore;
    hide PacksBefore;
    hide SortBy;
  }

  lemma RowBytes(p: Plan, i: nat)
    requires Suits(p) && i <= p.others
    ensures forall x :: 0 <= x < |From(p, i)| ==> BytesRequired(From(p, i)[x]) == p.bytes
  {
    forall x | 0 <= x < |From(p, i)| ensures BytesRequired(From(p, i)[x]) == p.bytes {
      TwinFacts(p, i + x);
      hide *;
    }
    hide *;
  }

  lemma NoneOversized(s: seq<Job>, maxJob: size_t)
    requires forall x :: 0 <= x < |s| ==> BytesRequired(s[x]) <= maxJob
    ensures Oversized(s, maxJob) == []
  {
    hide BytesRequired;
    if s != [] {
      NoneOversized(s[..|s| - 1], maxJob);
    }
  }

  lemma NoneOversizedInLine(p: Plan, i: nat)
    requires Suits(p) && i <= p.others
    ensures MaxJobBytes(p.cfg) > 0 ==> Oversized(Line(p, i), MaxJobBytes(p.cfg)) == []
  {
    hide BytesRequired;
    hide BytesOf;
    hide Base;
    if MaxJobBytes(p.cfg) > 0 {
      forall x | 0 <= x < |Line(p, i)| ensures BytesRequired(Line(p, i)[x]) <= MaxJobBytes(p.cfg) {
        LineAt(p, i, x);
        hide Line;
        hide Twin;
        if |p.elders| <= x {
          TwinFacts(p, i + (x - |p.elders|));
        }
        hide MaxJobBytes;
      }
      hide Suits;
      hide Line;
      hide MaxJobBytes;
      NoneOversized(Line(p, i), MaxJobBytes(p.cfg));
    }
  }

  lemma {:induction false} EqualTotal(s: seq<Job>, bytes: nat)
    requires forall x :: 0 <= x < |s| ==> BytesRequired(s[x]) == bytes
    ensures Total(s, JobBytes()) == |s| * bytes
  {
    hide BytesRequired;
    if s != [] {
      EqualTotal(s[..|s| - 1], bytes);
      assert |s| * bytes == (|s| - 1) * bytes + bytes;
    }
  }

  // ----- one packing round over the line

  function Min(a: nat, b: nat): nat {
    if a < b then a else b
  }

  /** The sweep over the elders and `s` has taken the first `n` jobs of `s` and no other. */
  predicate Took(p: Plan, s: seq<Job>, n: nat)
    requires n <= |s|
  {
    var st := SweepOver(p.elders + s, Base(p.cfg, p.free), p.cfg.maxBatch);
    st.selected == s[..n] && st.remaining == p.elders + s[n..] && st.used == BytesOf(p, n)
  }

  lemma TookNone(p: Plan)
    requires Suits(p)
    ensures Took(p, [], 0)
  {
    hide BytesRequired;
    BytesOfStep(p, 0);
    if p.elders == [] {
      hide BytesOf;
      hide Base;
      assert p.elders + [] == [];
    } else {
      ElderFacts(p);
      hide BytesOf;
      hide Base;
      var s := p.elders + [];
      assert s[..|s| - 1] == [];
      SweepUnfolds(s, Base(p.cfg, p.free), p.cfg.maxBatch);
      assert SweepOver([], Base(p.cfg, p.free), p.cfg.maxBatch) == Sweep([], [], 0);
      assert [] + p.elders == p.elders;
    }
  }

  lemma TookNext(p: Plan, s: seq<Job>, n: nat)
    requires Suits(p) && s != [] && n < |s| && n <= p.each && Took(p, s[..|s| - 1], n)
             && BytesRequired(s[|s| - 1]) == p.bytes
    requires n < p.each ==> n == |s| - 1
    ensures Took(p, s, if n < p.each then n + 1 else n)
  {
    hide BytesRequired;
    var front, last := s[..|s| - 1], s[|s| - 1];
    BehindElders(p, s);
    SweepUnfolds(p.elders + s, Base(p.cfg, p.free), p.cfg.maxBatch);
    hide SweepOver;
    AcceptsTwin(p, SweepOver(p.elders + front, Base(p.cfg, p.free), p.cfg.maxBatch), last, n);
    hide Accepts;
    hide Suits;
    hide BytesOf;
    hide Base;
    hide ToSize;
    if n < p.each {
      SliceTaken(s);
    } else {
      SliceLeft(s, n);
      LeftBehind(p.elders, front[n..], last);
    }
  }

  lemma LeftBehind(a: seq<Job>, b: seq<Job>, j: Job)
    ensures (a + b) + [j] == a + (b + [j])
  {
  }

  lemma BehindElders(p: Plan, s: seq<Job>)
    requires s != []
    ensures var whole := p.elders + s;
            whole[..|whole| - 1] == p.elders + s[..|s| - 1] && whole[|whole| - 1] == s[|s| - 1]
  {
  }

  /** Behind the elders, over equal jobs the sweep takes the first `each`. */
  lemma {:induction false} SweepTakesEach(p: Plan, s: seq<Job>)
    requires Suits(p) && forall x :: 0 <= x < |s| ==> BytesRequired(s[x]) == p.bytes
    ensures Took(p, s, Min(|s|, p.each))
  {
    hide BytesRequired;
    hide Suits;
    hide Took;
    if s == [] {
      TookNone(p);
    } else {
      SweepTakesEach(p, s[..|s| - 1]);
      TookNext(p, s, Min(|s| - 1, p.each));
    }
  }

  lemma SliceTaken(s: seq<Job>)
    requires s != []
    ensures var front, n := s[..|s| - 1], |s| - 1;
            front[..n] + [s[n]] == s[..n + 1] && front[n..] == [] == s[n + 1..]
  {
  }

  lemma SliceLeft(s: seq<Job>, n: nat)
    requires n < |s|
    ensures s[..|s| - 1][..n] == s[..n] && s[..|s| - 1][n..] + [s[|s| - 1]] == s[n..]
  {
  }

  lemma SweepUnfolds(s: seq<Job>, budget: size_t, maxBatch: int32)
    requires s != []
    ensures var st, j := SweepOver(s[..|s| - 1], budget, maxBatch), s[|s| - 1];
            SweepOver(s, budget, maxBatch)
            == if Accepts(st, j, budget, maxBatch)
               then Sweep(st.selected + [j], st.remaining, ToSize(st.used + BytesRequired(j)))
               else Sweep(st.selected, st.remaining + [j], st.used)
  {
    hide BytesRequired;
    hide Accepts;
  }

  /** The `n`-th job of the row against cap and budget. */
  lemma RoomFor(p: Plan, n: nat)
    requires Suits(p) && n <= p.each
    ensures p.bytes <= Base(p.cfg, p.free) < SIZE_HALF && BytesOf(p, n) + p.bytes == BytesOf(p, n + 1)
    ensures BytesOf(p, n) <= Base(p.cfg, p.free) && (p.cfg.maxBatch > 0 ==> p.each <= p.cfg.maxBatch)
    ensures n < p.each ==> BytesOf(p, n + 1) <= Base(p.cfg, p.free)
    ensures n == p.each ==> p.each == p.cfg.maxBatch > 0 || BytesOf(p, n + 1) > Base(p.cfg, p.free)
  {
    hide BytesRequired;
    OneFits(p);
    BytesOfStep(p, n);
    BytesOfGrows(p, n, p.each);
    if n < p.each {
      BytesOfGrows(p, n + 1, p.each);
    }
    hide BytesOf;
    hide Base;
    hide IsElder;
    hide Plausible;
    hide MaxJobBytes;
  }

  lemma AcceptsTwin(p: Plan, st: Sweep, last: Job, n: nat)
    requires Suits(p) && n <= p.each && |st.selected| == n && st.used == BytesOf(p, n)
    requires BytesRequired(last) == p.bytes
    ensures Accepts(st, last, Base(p.cfg, p.free), p.cfg.maxBatch) <==> n < p.each
    ensures n < p.each ==> ToSize(st.used + BytesRequired(last)) == BytesOf(p, n + 1)
  {
    hide BytesRequired;
    RoomFor(p, n);
    hide Suits;
    hide BytesOf;
    hide Base;
    SmallIsUnwrapped(st.used + BytesRequired(last));
    hide ToSize;
  }

  lemma LineIsPacked(p: Plan, i: nat)
    requires Suits(p) && i + p.each <= p.others
    ensures Pack(Line(p, i), Base(p.cfg, p.free), p.cfg.maxBatch, LATER).selected == From(p, i)[..p.each]
    ensures Pack(Line(p, i), Base(p.cfg, p.free), p.cfg.maxBatch, LATER).remaining == Line(p, i + p.each)
  {
    hide BytesRequired;
    hide Suits;
    hide Base;
    RowBytes(p, i);
    LineIsOrdered(p, i);
    SweepTakesEach(p, From(p, i));
    RowGoesOn(p, i);
    hide Sorted;
    hide SweepOver;
    hide From;
  }

  lemma RowGoesOn(p: Plan, i: nat)
    requires i + p.each <= p.others
    ensures From(p, i)[p.each..] == From(p, i + p.each) && |From(p, i)| == p.others + 1 - i
  {
    hide Twin;
  }

  lemma RowAt(p: Plan, i: nat, x: nat)
    requires i + x <= p.others
    ensures |From(p, i)| == p.others + 1 - i && From(p, i)[x] == Twin(p, i + x)
    ensures From(p, i)[x].seqNo == |p.elders| + i + x && From(p, i)[x].submitTime == Arrival(p)
  {
  }

  lemma SuitsEach(p: Plan)
    requires Suits(p)
    ensures p.each >= 1 && ConfigOk(p.cfg) && !p.cfg.gpuAbsent
  {
  }

  lemma SuitsFree(p: Plan)
    requires Suits(p)
    ensures p.free < SIZE_HALF && Plausible(p.cfg, Disp(p.free))
  {
  }

  lemma BatchBytesAre(p: Plan, i: nat)
    requires Suits(p) && i + p.each <= p.others
    ensures BatchBytes(From(p, i)[..p.each]) == BytesOf(p, p.each) < SIZE_HALF && From(p, i)[..p.each] != []
  {
    hide BytesRequired;
    RowBytes(p, i);
    RowGoesOn(p, i);
    hide From;
    OneFits(p);
    SuitsEach(p);
    hide Suits;
    hide Base;
    hide Total;
    EqualTotal(From(p, i)[..p.each], p.bytes);
  }

  /** The scheduler is at the top of a round: the line from job `i` is queued, nobody is working. */
  ghost predicate Ready(p: Plan, s: State, i: nat, batches: seq<seq<Job>>, reserved: nat) {
    && i <= p.others
    && s.disp == WaitSpace && s.clock == LATER
    && s.sh.queue == Line(p, i) && s.sh.batchQueue == batches && s.sh.reserved == reserved
    && s.sh.started && !s.sh.shutdown
    && |s.workers| == p.cfg.numWorkers && (forall w :: 0 <= w < |s.workers| ==> s.workers[w] == WWait)
    && s.accepted == Line(p, 0)
  }

  lemma LineIsNotEmpty(p: Plan, i: nat)
    requires i <= p.others
    ensures Line(p, i) != []
  {
  }

  /** The first half of a round: everything is drained and the budget is read. */
  lemma RoundDrains(p: Plan, s: State, i: nat, batches: seq<seq<Job>>, counted: (State, Action) -> bool, rounds: nat)
    returns (s': State)
    requires Suits(p) && Ready(p, s, i, batches, 0) && |batches| < MaxQueueDepth(p.cfg) && OnlyPacking(counted)
    requires Reaches(p.cfg, s, counted, rounds)
    ensures Reaches(p.cfg, s', counted, rounds)
    ensures s' == s.(sh := s.sh.(queue := []), disp := Packing(Line(p, i), Base(p.cfg, p.free)))
  {
    hide Reaches;
    hide OnlyPacking;
    LineIsOrdered(p, i);
    NoneOversizedInLine(p, i);
    LineIsNotEmpty(p, i);
    SuitsFree(p);
    SuitsEach(p);
    hide Suits;
    hide Plausible;
    hide DrainOrder;
    hide Oversized;
    hide Sorted;
    hide Pack;
    hide BytesRequired;
    hide Line;
    var cfg := p.cfg;
    var s1 := Dispatch(cfg, s, p.free, counted, rounds);
    var s2 := Dispatch(cfg, s1, p.free, counted, rounds);
    var s3 := Dispatch(cfg, s2, p.free, counted, rounds);
    var s4 := Dispatch(cfg, s3, p.free, counted, rounds);
    if s4.disp.Packing? {
      s' := s4;
    } else {
      s' := Dispatch(cfg, s4, p.free, counted, rounds);
    }
  }

  /** The packing step leaves the victim behind. */
  lemma VictimIsCounted(p: Plan, s: State, i: nat)
    requires Suits(p) && i + p.each <= p.others && s.clock == LATER
    requires s.disp == Packing(Line(p, i), Base(p.cfg, p.free))
    ensures Counted(p)(s, Disp(p.free))
  {
    hide BytesOf;
    hide BytesRequired;
    LineIsPacked(p, i);
    hide Pack;
    SuitsEach(p);
    var selected := From(p, i)[..p.each];
    if p.elders == [] {
      TwinFacts(p, p.others);
      LineAt(p, i, p.others - i);
      assert Victim(p) == Line(p, i)[p.others - i];
    } else {
      ElderFacts(p);
      LineAt(p, i, 0);
      assert Victim(p) == Line(p, i)[0];
      RowAt(p, i, 0);
      assert selected[0] in selected && selected[0].submitTime >= 1 + AGING_INTERVAL_NS;
    }
    hide AgeBucket;
    hide Suits;
    hide Base;
    hide Line;
    hide From;
    forall x | 0 <= x < |selected| ensures selected[x] != Victim(p) {
      RowAt(p, i, x);
    }
  }

  /** The packing step takes the next `each` jobs and leaves the victim behind. */
  lemma RoundPacks(p: Plan, s: State, i: nat, rounds: nat) returns (s': State)
    requires Suits(p) && i + p.each <= p.others && s.clock == LATER
    requires s.disp == Packing(Line(p, i), Base(p.cfg, p.free)) && Reaches(p.cfg, s, Counted(p), rounds)
    ensures Reaches(p.cfg, s', Counted(p), rounds + 1)
    ensures s' == s.(disp := Requeueing(From(p, i)[..p.each], Line(p, i + p.each)))
  {
    hide Reaches;
    hide BytesRequired;
    RowGoesOn(p, i);
    LineIsPacked(p, i);
    VictimIsCounted(p, s, i);
    SuitsFree(p);
    hide Suits;
    hide Pack;
    hide Base;
    hide Counted;
    hide Line;
    hide From;
    hide Plausible;
    s' := s.(disp := Requeueing(From(p, i)[..p.each], Line(p, i + p.each)));
    ReachStep(p.cfg, s, Disp(p.free), s', Counted(p), rounds);
  }

  lemma RoundPushes(p: Plan, s: State, i: nat, counted: (State, Action) -> bool, rounds: nat) returns (s': State)
    requires Suits(p) && i + p.each <= p.others && s.sh.queue == [] && s.sh.reserved == 0 && OnlyPacking(counted)
    requires s.disp == Requeueing(From(p, i)[..p.each], Line(p, i + p.each)) && Reaches(p.cfg, s, counted, rounds)
    ensures Reaches(p.cfg, s', counted, rounds)
    ensures s' == s.(sh := s.sh.(queue := Line(p, i + p.each), batchQueue := s.sh.batchQueue + [From(p, i)[..p.each]],
                                 reserved := BytesOf(p, p.each)), disp := WaitSpace)
  {
    hide Reaches;
    hide OnlyPacking;
    hide BytesOf;
    hide BytesRequired;
    BatchBytesAre(p, i);
    hide Pack;
    hide BatchBytes;
    SuitsFree(p);
    hide Suits;
    hide Plausible;
    var rest := Line(p, i + p.each);
    hide From;
    hide Line;
    assert [] + rest == rest;
    var s1 := Dispatch(p.cfg, s, p.free, counted, rounds);
    var s2 := Dispatch(p.cfg, s1, p.free, counted, rounds);
    s' := Dispatch(p.cfg, s2, p.free, counted, rounds);
  }

  /** One round of the dispatcher. */
  lemma Round(p: Plan, s: State, i: nat, batches: seq<seq<Job>>, rounds: nat) returns (s': State)
    requires Suits(p) && i + p.each <= p.others
    requires Ready(p, s, i, batches, 0) && |batches| < MaxQueueDepth(p.cfg) && Reaches(p.cfg, s, Counted(p), rounds)
    ensures Ready(p, s', i + p.each, batches + [From(p, i)[..p.each]], BytesOf(p, p.each))
    ensures Reaches(p.cfg, s', Counted(p), rounds + 1)
  {
    CountedPacks(p);
    hide Reaches;
    hide OnlyPacking;
    hide Counted;
    hide Suits;
    hide From;
    hide Line;
    hide Twin;
    var s1 := RoundDrains(p, s, i, batches, Counted(p), rounds);
    var s2 := RoundPacks(p, s1, i, rounds);
    s' := RoundPushes(p, s2, i, Counted(p), rounds + 1);
  }

  /** A worker takes the batch, runs it and gives its reservation back. */
  lemma WorkerClears(p: Plan, s: State, i: nat, batch: seq<Job>, reserved: size_t,
                     counted: (State, Action) -> bool, rounds: nat) returns (s': State)
    requires !p.cfg.gpuAbsent && p.cfg.numWorkers > 0 && reserved == BatchBytes(batch) && OnlyPacking(counted)
    requires Ready(p, s, i, [batch], reserved) && Reaches(p.cfg, s, counted, rounds)
    ensures Ready(p, s', i, [], 0) && Reaches(p.cfg, s', counted, rounds)
  {
    hide Reaches;
    hide OnlyPacking;
    hide RowsOf;
    hide BatchBytes;
    hide Line;
    hide WorkPath;
    hide WorkIterate;
    var acts := WorkerRoundExists(p.cfg, s, 0, true);
    WorkReaches(p.cfg, s, 0, acts, counted, rounds);
    s' := WorkIterate(p.cfg, s, 0, acts);
  }

  // ----- whole runs

  /** Jobs `taken` have been submitted up to `clock`, and nothing has been done with them. */
  function Waiting(cfg: Config, taken: seq<Job>, clock: int): State {
    State(Shared(taken, |taken|, [], 0, [], 0, 0, true, false), taken, |taken|, clock, WaitSpace,
          seq(cfg.numWorkers, _ => WWait))
  }

  lemma Started(cfg: Config, counted: (State, Action) -> bool)
    requires ConfigOk(cfg) && OnlyPacking(counted)
    ensures Reaches(cfg, Waiting(cfg, [], 1), counted, 0)
  {
    var s0 := State(Shared([], 0, [], 0, [], 0, 0, false, false), [], 0, 1, DExited,
                    seq(cfg.numWorkers, _ => WExited));
    assert IsPlausibleRun(cfg, [s0], []) && Last([s0]) == s0 && Rounds([s0], [], counted) == 0;
    hide Reaches;
    hide OnlyPacking;
    var s := Waiting(cfg, [], 1);
    assert s.workers == seq(|s0.workers|, _ => WWait);
    QuietStep(cfg, s0, Start, s, counted, 0);
  }

  lemma SubmitOne(cfg: Config, taken: seq<Job>, j: Job, counted: (State, Action) -> bool)
    requires Reaches(cfg, Waiting(cfg, taken, j.submitTime), counted, 0) && OnlyPacking(counted)
    requires 0 < j.submitTime && j.seqNo == |taken|
    ensures Reaches(cfg, Waiting(cfg, taken + [j], j.submitTime), counted, 0)
  {
    hide Reaches;
    hide OnlyPacking;
    QuietStep(cfg, Waiting(cfg, taken, j.submitTime), SubmitPush(j, j.submitTime),
              Waiting(cfg, taken + [j], j.submitTime), counted, 0);
  }

  lemma Wait(cfg: Config, taken: seq<Job>, from: int, until: int, counted: (State, Action) -> bool)
    requires Reaches(cfg, Waiting(cfg, taken, from), counted, 0) && from <= until && OnlyPacking(counted)
    ensures Reaches(cfg, Waiting(cfg, taken, until), counted, 0)
  {
    hide Reaches;
    hide OnlyPacking;
    QuietStep(cfg, Waiting(cfg, taken, from), Tick(until), Waiting(cfg, taken, until), counted, 0);
  }

  /** The elders are there when the row arrives. */
  lemma EldersWait(p: Plan, counted: (State, Action) -> bool)
    requires Suits(p) && OnlyPacking(counted)
    ensures Reaches(p.cfg, Waiting(p.cfg, p.elders, Arrival(p)), counted, 0)
  {
    SuitsEach(p);
    if p.elders != [] {
      ElderFacts(p);
    }
    hide Suits;
    hide BytesRequired;
    hide Base;
    hide Reaches;
    hide OnlyPacking;
    hide Waiting;
    Started(p.cfg, counted);
    if p.elders != [] {
      assert [] + p.elders == p.elders;
      SubmitOne(p.cfg, [], p.elders[0], counted);
      Wait(p.cfg, p.elders, 1, LATER, counted);
    }
  }

  lemma {:induction false} RowArrives(p: Plan, n: nat, counted: (State, Action) -> bool)
    requires Suits(p) && n <= p.others + 1 && OnlyPacking(counted)
    ensures Reaches(p.cfg, Waiting(p.cfg, p.elders + From(p, 0)[..n], Arrival(p)), counted, 0)
  {
    hide Suits;
    hide Reaches;
    hide OnlyPacking;
    hide Waiting;
    if n == 0 {
      EldersWait(p, counted);
      assert p.elders + From(p, 0)[..0] == p.elders;
    } else {
      RowArrives(p, n - 1, counted);
      var taken := p.elders + From(p, 0)[..n - 1];
      assert p.elders + From(p, 0)[..n] == taken + [Twin(p, n - 1)];
      SubmitOne(p.cfg, taken, Twin(p, n - 1), counted);
    }
  }

  lemma LineStarts(p: Plan, counted: (State, Action) -> bool) returns (s: State)
    requires Suits(p) && OnlyPacking(counted)
    ensures Ready(p, s, 0, [], 0) && Reaches(p.cfg, s, counted, 0)
  {
    RowArrives(p, p.others + 1, counted);
    hide Suits;
    hide Reaches;
    hide OnlyPacking;
    assert From(p, 0)[..p.others + 1] == From(p, 0);
    hide From;
    Wait(p.cfg, Line(p, 0), Arrival(p), LATER, counted);
    s := Waiting(p.cfg, Line(p, 0), LATER);
    hide Line;
  }

  /** `n` rounds, each followed by a worker's round. */
  lemma {:induction false} ManyRounds(p: Plan, n: nat) returns (s: State)
    requires Suits(p) && p.cfg.numWorkers > 0 && n * p.each <= p.others
    ensures Ready(p, s, n * p.each, [], 0) && Reaches(p.cfg, s, Counted(p), n)
  {
    CountedPacks(p);
    hide OnlyPacking;
    hide Counted;
    hide Reaches;
    hide From;
    hide BytesOf;
    hide Suits;
    hide Ready;
    hide BatchBytes;
    SuitsEach(p);
    if n == 0 {
      s := LineStarts(p, Counted(p));
    } else {
      var i := (n - 1) * p.each;
      assert n * p.each == i + p.each;
      var s0 := ManyRounds(p, n - 1);
      var s1 := Round(p, s0, i, [], n - 1);
      BatchBytesAre(p, i);
      RowGoesOn(p, i);
      assert [] + [From(p, i)[..p.each]] == [From(p, i)[..p.each]];
      s := WorkerClears(p, s1, i + p.each, From(p, i)[..p.each], BytesOf(p, p.each), Counted(p), n);
    }
  }

  // ----- the peers of the job that waits

  lemma {:induction false} PeersInRow(p: Plan, n: nat)
    requires n <= p.others + 1 && p.elders == []
    ensures Total(From(p, 0)[..n], Peer(Twin(p, p.others))) == Min(n, p.others)
  {
    if n > 0 {
      PeersInRow(p, n - 1);
      assert From(p, 0)[..n] == From(p, 0)[..n - 1] + [Twin(p, n - 1)];
      TotalSnoc(From(p, 0)[..n - 1], Twin(p, n - 1), Peer(Twin(p, p.others)));
    }
  }

  /** The others of the row are peers of its last job, and an elder has none. */
  lemma PeersInLine(p: Plan)
    requires Suits(p)
    ensures Total(Line(p, 0), Peer(Victim(p))) == (if p.elders == [] then p.others else 0)
  {
    hide BytesRequired;
    hide Base;
    hide BytesOf;
    if p.elders == [] {
      hide Suits;
      PeersInRow(p, p.others + 1);
      assert Line(p, 0) == From(p, 0)[..p.others + 1];
      hide Total;
    } else {
      ElderFacts(p);
      hide Suits;
      forall x | x in Line(p, 0) ensures Peer(Victim(p))(x) == 0 {
        if x != p.elders[0] {
          var k :| 0 <= k < |From(p, 0)| && From(p, 0)[k] == x;
        }
      }
      TotalZero(Line(p, 0), Peer(Victim(p)));
    }
  }
}
