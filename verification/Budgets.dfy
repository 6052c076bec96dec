/** The budget of a packing round, over its two reads, and what a round does with it. */
module Budgets {
  import opened Jobs
  import opened Packing
  import opened Protocol
  import opened Ledger

  /** Whatever the other threads do between the dispatcher's two reads, the round's budget is the fixed one,
      or what the monitor's reading leaves beyond the margin, less what was reserved at the second read;
      nothing where that is negative. */
  lemma BudgetIsWhatIsLeft(cfg: Config, s: State, free: size_t, t: State, free': size_t)
    requires s.disp.Sampling? && t.disp == DispApply(cfg, s, free).disp
    ensures
      var base := if cfg.fixedBudget > 0 then cfg.fixedBudget else if free > cfg.margin then free - cfg.margin else 0;
      var d := if t.disp.Packing? then t.disp else DispApply(cfg, t, free').disp;
      d == Packing(s.disp.cands, if base > t.sh.reserved then base - t.sh.reserved else 0)
    ensures t.disp.Packing? ==> cfg.fixedBudget == 0 && free <= cfg.margin
  {
    hide Pack;
  }

  /** A base is the fixed budget, if there is one. */
  ghost predicate BaseIsFixed(cfg: Config, d: DPc) {
    d.ReadLedger? && cfg.fixedBudget > 0 ==> d.base == cfg.fixedBudget
  }

  lemma {:induction false} RunBase(cfg: Config, states: seq<State>, actions: seq<Action>)
    requires IsRun(cfg, states, actions)
    ensures BaseIsFixed(cfg, Last(states).disp)
    decreases |actions|
  {
    hide BytesRequired;
    hide Pack;
    hide DrainOrder;
    hide Oversized;
    hide Fitting;
    hide RowsOf;
    hide WorkerShared;
    hide WorkerNext;
    if actions != [] {
      RunPrefix(cfg, states, actions);
      RunBase(cfg, states[..|states| - 1], actions[..|actions| - 1]);
      hide IsRun;
    }
  }

  /** In every reachable state in which the dispatcher reads the ledger, the budget it goes on with and the
      bytes of all batches in flight are together exactly its base, as long as the base covers them. */
  lemma BudgetAndFlightAreBase(cfg: Config, states: seq<State>, actions: seq<Action>, free: size_t)
    requires IsRun(cfg, states, actions) && Last(states).disp.ReadLedger?
    ensures
      var s := Last(states);
      var d := DispApply(cfg, s, free).disp;
      && d.Packing? && d.cands == s.disp.cands
      && (InFlight(s) <= s.disp.base ==> d.budget + InFlight(s) == s.disp.base)
      && (InFlight(s) > s.disp.base ==> d.budget == 0)
      && (cfg.fixedBudget > 0 ==> s.disp.base == cfg.fixedBudget)
  {
    LedgerIsExact(cfg, states, actions);
    RunBase(cfg, states, actions);
    hide IsRun;
    hide LedgerInv;
    hide InFlight;
    hide Pack;
  }

  /** Also with batches in flight: a round whose ledger was read at `s` and that packs at `t`, with anything
      in between, takes something exactly if some candidate needs no memory or no more than its base
      exceeds the reserved bytes by. */
  lemma RoundTakesSomethingIff(cfg: Config, s: State, free: size_t, t: State, free': size_t)
    requires s.disp.ReadLedger? && t.disp == DispApply(cfg, s, free).disp
    ensures
      var d := DispApply(cfg, t, free').disp;
      d.Requeueing? &&
      (d.selected != [] <==>
       exists j :: j in s.disp.cands && (BytesRequired(j) == 0 || s.sh.reserved + BytesRequired(j) <= s.disp.base))
  {
    hide BytesRequired;
    SelectsSomethingIff(t.disp.cands, t.disp.budget, cfg.maxBatch, t.clock);
    hide Pack;
    var budget := t.disp.budget;
    assert forall j :: BytesRequired(j) <= budget <==>
             (BytesRequired(j) == 0 || s.sh.reserved + BytesRequired(j) <= s.disp.base);
  }
}
