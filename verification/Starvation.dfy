/** Aging bounds starvation over whole runs of the protocol, with arbitrary later arrivals. */
module Starvation {
  import opened Totals
  import opened Jobs
  import opened Packing
  import opened Protocol
  import opened Conservation

  /** The step is a packing round in which `j` is a candidate, the budget covers it, and it is
      not selected. */
  predicate PassedOver(cfg: Config, s: State, a: Action, j: Job) {
    && a.Disp? && s.disp.Packing?
    && j in s.disp.cands
    && BytesRequired(j) <= s.disp.budget
    && j !in Pack(s.disp.cands, s.disp.budget, cfg.maxBatch, s.clock).selected
  }

  /** In how many steps of a run `counted` holds. */
  function Rounds(states: seq<State>, actions: seq<Action>, counted: (State, Action) -> bool): nat
    requires |states| == |actions| + 1
  {
    if actions == [] then 0
    else
      var k := |actions| - 1;
      Rounds(states[..k + 1], actions[..k], counted) + (if counted(states[k], actions[k]) then 1 else 0)
  }

  function PassesOver(cfg: Config, j: Job): (State, Action) -> bool {
    (s: State, a: Action) => PassedOver(cfg, s, a, j)
  }

  function PassedOverRounds(cfg: Config, states: seq<State>, actions: seq<Action>, j: Job): nat
    requires |states| == |actions| + 1
  {
    Rounds(states, actions, PassesOver(cfg, j))
  }

  /** The other jobs that aging allows to go ahead of `j`: those submitted less than one aging
      interval after it. */
  function Peer(j: Job): Job -> nat {
    (c: Job) => if c.seqNo != j.seqNo && c.submitTime < j.submitTime + AGING_INTERVAL_NS then 1 else 0
  }

  /** Jobs that no packing round has selected or rejected for good yet. */
  function Undecided(d: DPc): seq<Job> {
    match d
    case Triage(c) => c
    case Failing(_, after) => KeptBy(after)
    case FailBump(_, after) => KeptBy(after)
    case Sampling(c) => c
    case ReadLedger(c, _) => c
    case Packing(c, _) => c
    case Requeueing(_, rem) => rem
    case _ => []
  }

  function Waiting(s: State, w: Job -> nat): nat {
    Total(s.sh.queue, w) + Total(Undecided(s.disp), w)
  }

  function BadStamp(now: int): Job -> nat {
    (j: Job) => if 0 < j.submitTime <= now then 0 else 1
  }

  lemma DispatcherWaiting(cfg: Config, s: State, free: size_t, w: Job -> nat)
    requires DispEnabled(cfg, s, free)
    ensures s.disp.Packing? ==>
              Waiting(DispApply(cfg, s, free), w)
              + Total(Pack(s.disp.cands, s.disp.budget, cfg.maxBatch, s.clock).selected, w) == Waiting(s, w)
    ensures Waiting(DispApply(cfg, s, free), w) <= Waiting(s, w)
  {
    hide BytesRequired;
    hide Total;
    hide Pack;
    hide Oversized;
    hide Fitting;
    hide RowsOf;
    hide DrainOrder;
    EmptyTotals(w);
    match s.disp
    case WaitQueue => DrainTotal(s.sh.queue, w);
    case Triage(c) => SplitTotal(c, MaxJobBytes(cfg), w);
    case Packing(c, budget) => PackTotal(c, budget, cfg.maxBatch, s.clock, w);
    case Requeueing(sel, rem) => TotalConcat(s.sh.queue, rem, w);
    case _ =>
  }

  lemma TwoHolders(c: seq<Job>, x: Job, y: Job)
    requires x in c && y in c && x != y && x.seqNo == y.seqNo
    ensures Total(c, HasSeq(x.seqNo)) >= 2
  {
    var i :| 0 <= i < |c| && c[i] == x;
    TotalRemove(c, i, HasSeq(x.seqNo));
    var rest := c[..i] + c[i + 1..];
    var k :| 0 <= k < |c| && c[k] == y;
    assert rest[if k < i then k else k - 1] == y;
    TotalBounds(rest, HasSeq(x.seqNo), if k < i then k else k - 1);
  }

  lemma StampsArePast(s: State)
    requires s.disp.Packing? && Load(s, BadStamp(s.clock)) == 0
    ensures forall x :: x in s.disp.cands ==> 0 < x.submitTime <= s.clock
  {
    var c := s.disp.cands;
    forall x | x in c ensures 0 < x.submitTime <= s.clock {
      var i :| 0 <= i < |c| && c[i] == x;
      TotalBounds(c, BadStamp(s.clock), i);
    }
  }

  /** A round that passes `j` over selects one of its peers. */
  lemma PassedOverSelectsPeer(cfg: Config, s: State, a: Action, j: Job)
    requires PassedOver(cfg, s, a, j)
    requires Load(s, BadStamp(s.clock)) == 0 && Load(s, HasSeq(j.seqNo)) <= 1
    ensures Total(Pack(s.disp.cands, s.disp.budget, cfg.maxBatch, s.clock).selected, Peer(j)) >= 1
  {
    hide BytesRequired;
    hide SweepOver;
    var c := s.disp.cands;
    var selected := Pack(c, s.disp.budget, cfg.maxBatch, s.clock).selected;
    StampsArePast(s);
    PassedOverForAPeer(c, s.disp.budget, cfg.maxBatch, s.clock, j);
    var x :| x in selected && x != j && x.submitTime < j.submitTime + AGING_INTERVAL_NS;
    PackPartitions(c, s.disp.budget, cfg.maxBatch, s.clock);
    assert x in multiset(selected);
    assert x in multiset(c);
    if x.seqNo == j.seqNo {
      TwoHolders(c, j, x);
    }
    var k :| 0 <= k < |selected| && selected[k] == x;
    TotalBounds(selected, Peer(j), k);
  }

  /** How many peers every round that passes `j` over selects at least: a whole batch of them if
      `j` has no footprint, because then only the cap can hold it back. */
  function PeersPerRound(cfg: Config, j: Job): nat {
    if cfg.maxBatch > 0 && BytesRequired(j) == 0 then cfg.maxBatch else 1
  }

  lemma AllPeers(selected: seq<Job>, j: Job)
    requires forall x :: x in selected ==> x.seqNo != j.seqNo && x.submitTime < j.submitTime + AGING_INTERVAL_NS
    ensures Total(selected, Peer(j)) == |selected|
  {
    if selected != [] {
      AllPeers(selected[..|selected| - 1], j);
    }
  }

  lemma PassedOverSelectsPeers(cfg: Config, s: State, a: Action, j: Job)
    requires PassedOver(cfg, s, a, j)
    requires Load(s, BadStamp(s.clock)) == 0 && Load(s, HasSeq(j.seqNo)) <= 1
    ensures Total(Pack(s.disp.cands, s.disp.budget, cfg.maxBatch, s.clock).selected, Peer(j)) >= PeersPerRound(cfg, j)
  {
    hide BytesRequired;
    hide SweepOver;
    var c := s.disp.cands;
    if cfg.maxBatch > 0 && BytesRequired(j) == 0 {
      StampsArePast(s);
      PassedOverForABatch(c, s.disp.budget, cfg.maxBatch, s.clock, j);
      var selected := Pack(c, s.disp.budget, cfg.maxBatch, s.clock).selected;
      hide Pack;
      forall x | x in selected ensures x.seqNo != j.seqNo {
        if x.seqNo == j.seqNo {
          TwoHolders(c, j, x);
        }
      }
      AllPeers(selected, j);
    } else {
      PassedOverSelectsPeer(cfg, s, a, j);
    }
  }

  lemma WaitingStep(cfg: Config, s: State, a: Action, s': State, j: Job)
    requires Step(cfg, s, a, s')
    requires Load(s, BadStamp(s.clock)) == 0 && Load(s, HasSeq(j.seqNo)) <= 1
    ensures
      Waiting(s', Peer(j)) + (if PassedOver(cfg, s, a, j) then PeersPerRound(cfg, j) else 0)
          + Total(s.accepted, Peer(j))
      <= Waiting(s, Peer(j)) + Total(s'.accepted, Peer(j))
  {
    hide BytesRequired;
    hide DispApply;
    hide Load;
    hide Pack;
    hide Total;
    hide Buffers;
    hide RowsOf;
    hide PeersPerRound;
    match a
    case Disp(free) =>
      DispatcherWaiting(cfg, s, free, Peer(j));
      DispatcherLeavesHistory(cfg, s, free);
      if PassedOver(cfg, s, a, j) {
        PassedOverSelectsPeers(cfg, s, a, j);
      }
    case SubmitPush(job, at) =>
      TotalSnoc(s.sh.queue, Stamped(job, at, s.sh.nextSeq), Peer(j));
      TotalSnoc(s.accepted, Stamped(job, at, s.sh.nextSeq), Peer(j));
    case Start => EmptyTotals(Peer(j));
      WaitingIgnoresStart(cfg, s, s', j);
    case _ =>
  }

  lemma WaitingIgnoresStart(cfg: Config, s: State, s': State, j: Job)
    requires Step(cfg, s, Start, s')
    ensures Waiting(s', Peer(j)) <= Waiting(s, Peer(j))
  {
    EmptyTotals(Peer(j));
  }

  lemma NothingBadInFlight(cfg: Config, states: seq<State>, actions: seq<Action>, q: nat)
    requires IsRun(cfg, states, actions)
    ensures Load(Last(states), BadStamp(Last(states).clock)) == 0 && Load(Last(states), HasSeq(q)) <= 1
  {
    hide BytesRequired;
    hide Load;
    var s := Last(states);
    JobsAreConserved(cfg, states, actions, q);
    RunAccepts(cfg, states, actions);
    RunLoad(cfg, states, actions, BadStamp(s.clock));
    forall x | x in s.accepted ensures BadStamp(s.clock)(x) == 0 {
      var k :| 0 <= k < |s.accepted| && s.accepted[k] == x;
    }
    TotalZero(s.accepted, BadStamp(s.clock));
  }

  lemma OneMore(r: nat, c: nat)
    ensures (r + 1) * c == r * c + c && r * c >= 0
  {
  }

  lemma {:induction false} StarvationPotential(cfg: Config, states: seq<State>, actions: seq<Action>, j: Job)
    requires IsRun(cfg, states, actions)
    ensures PassedOverRounds(cfg, states, actions, j) * PeersPerRound(cfg, j) + Waiting(Last(states), Peer(j))
            <= Total(Last(states).accepted, Peer(j))
    decreases |actions|
  {
    hide BytesRequired;
    hide Step;
    hide PassedOver;
    hide PeersPerRound;
    if actions == [] {
      EmptyTotals(Peer(j));
    } else {
      RunPrefix(cfg, states, actions);
      var prefix := states[..|states| - 1];
      StarvationPotential(cfg, prefix, actions[..|actions| - 1], j);
      NothingBadInFlight(cfg, prefix, actions[..|actions| - 1], j.seqNo);
      hide Waiting;
      hide Load;
      WaitingStep(cfg, Last(prefix), actions[|actions| - 1], Last(states), j);
      OneMore(PassedOverRounds(cfg, prefix, actions[..|actions| - 1], j), PeersPerRound(cfg, j));
      assert states[..|actions|] == prefix;
    }
  }

  /** Bounded starvation. Over any run, of any length and with any later arrivals, the rounds in
      which `j` is a candidate, the budget covers it and it is passed over number at most the other
      jobs submitted less than one aging interval after `j`; for a job without footprint, at most
      that number divided by the cap. */
  lemma StarvationIsBounded(cfg: Config, states: seq<State>, actions: seq<Action>, j: Job)
    requires IsRun(cfg, states, actions)
    ensures PassedOverRounds(cfg, states, actions, j) <= Total(Last(states).accepted, Peer(j))
    ensures PassedOverRounds(cfg, states, actions, j) * PeersPerRound(cfg, j) <= Total(Last(states).accepted, Peer(j))
  {
    StarvationPotential(cfg, states, actions, j);
    AtLeastOnce(PassedOverRounds(cfg, states, actions, j), PeersPerRound(cfg, j));
    hide *;
  }

  lemma AtLeastOnce(r: nat, c: nat)
    requires c >= 1
    ensures r <= r * c
  {
    assert r * c - r == r * (c - 1);
  }
}
