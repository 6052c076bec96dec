/** The batch daemon: one generator thread submits jobs while the main thread polls for drain. */
module Daemon {
  import opened Totals
  import opened Jobs
  import opened Protocol
  import opened Conservation
  import opened Lifecycle

  /** Progress of the exit test, whose operands are read one at a time. The two reads of the last
      comparison may happen in either order. */
  datatype Monitor =
    | Check
    | GeneratorWasDone
    | SawSubmissions
    | SawEmptyQueue
    | ReadSubmitted(submitted: nat)
    | ReadCompleted(completed: nat)
    | Drained
    | Interrupted

  /** `states` and `actions` are the scheduler's run so far. */
  datatype Daemon = Daemon(states: seq<State>, actions: seq<Action>, generatorDone: bool, monitor: Monitor)

  datatype Event =
    | Scheduler(a: Action, s': State)
    | GeneratorDone
    | CheckDone
    | CheckSubmitted
    | CheckQueued
    | ReadSubmittedFirst
    | ReadCompletedFirst
    | Compare
    | Interrupt

  predicate InitDaemon(cfg: Config, d: Daemon) {
    && ConfigOk(cfg) && |d.states| == 1 && Init(cfg, d.states[0]) && d.actions == []
    && !d.generatorDone && d.monitor == Check
  }

  /** Jobs are submitted by the generator only, which finishes every submission, counter included,
      before it reports that it is done. */
  predicate EventStep(cfg: Config, d: Daemon, e: Event, d': Daemon)
    requires d.states != []
  {
    var s := Last(d.states);
    match e
    case Scheduler(a, s') =>
      && Step(cfg, s, a, s')
      && (a.SubmitPush? || a.SubmitBump? ==> !d.generatorDone)
      && d' == d.(states := d.states + [s'], actions := d.actions + [a])
    case GeneratorDone => s.unbumped == 0 && d' == d.(generatorDone := true)
    case CheckDone => d.monitor == Check && d' == d.(monitor := if d.generatorDone then GeneratorWasDone else Check)
    case CheckSubmitted =>
      d.monitor == GeneratorWasDone && d' == d.(monitor := if s.sh.submitted > 0 then SawSubmissions else Check)
    case CheckQueued => d.monitor == SawSubmissions
        && d' == d.(monitor := if s.sh.queue == [] then SawEmptyQueue else Check)
    case ReadSubmittedFirst => d.monitor == SawEmptyQueue && d' == d.(monitor := ReadSubmitted(s.sh.submitted))
    case ReadCompletedFirst => d.monitor == SawEmptyQueue && d' == d.(monitor := ReadCompleted(s.sh.completed))
    case Compare =>
      (match d.monitor
       case ReadSubmitted(n) => d' == d.(monitor := if s.sh.completed >= n then Drained else Check)
       case ReadCompleted(c) => d' == d.(monitor := if c >= s.sh.submitted then Drained else Check)
       case _ => false)
    case Interrupt => d.monitor == Check && d' == d.(monitor := Interrupted)
  }

  ghost predicate IsDaemonRun(cfg: Config, ds: seq<Daemon>, es: seq<Event>) {
    && |ds| == |es| + 1
    && InitDaemon(cfg, ds[0])
    && (forall k :: 0 <= k < |ds| ==> ds[k].states != [])
    && forall k :: 0 <= k < |es| ==> EventStep(cfg, ds[k], es[k], ds[k + 1])
  }

  /** The exit test is past its second operand. */
  predicate HasSeenSubmissions(m: Monitor) {
    match m
    case Check => false
    case GeneratorWasDone => false
    case Interrupted => false
    case _ => true
  }

  ghost predicate DaemonInv(cfg: Config, d: Daemon) {
    && IsRun(cfg, d.states, d.actions)
    && (!d.monitor.Check? && !d.monitor.Interrupted? ==> d.generatorDone)
    && var s := Last(d.states);
       && (d.generatorDone ==> s.unbumped == 0)
       && (HasSeenSubmissions(d.monitor) ==> s.sh.submitted > 0)
       && (d.monitor.ReadSubmitted? ==> d.monitor.submitted == s.sh.submitted)
       && (d.monitor.ReadCompleted? ==> d.monitor.completed <= s.sh.completed)
       && (d.monitor.Drained? ==> s.sh.completed >= s.sh.submitted)
  }

  lemma ExtendRun(cfg: Config, states: seq<State>, actions: seq<Action>, a: Action, s': State)
    requires IsRun(cfg, states, actions) && Step(cfg, Last(states), a, s')
    ensures IsRun(cfg, states + [s'], actions + [a])
  {
    hide Step;
    var ss, aa := states + [s'], actions + [a];
    forall k | 0 <= k < |aa| ensures Step(cfg, ss[k], aa[k], ss[k + 1]) {
      if k < |actions| {
        assert Step(cfg, states[k], actions[k], states[k + 1]);
      }
    }
  }

  /** Without submitters a step leaves the submission side alone, and counters never go back. */
  lemma QuietStep(cfg: Config, s: State, a: Action, s': State)
    requires Step(cfg, s, a, s')
    ensures s'.sh.completed >= s.sh.completed
    ensures !a.SubmitPush? && !a.SubmitBump? ==> s'.sh.submitted == s.sh.submitted && s'.unbumped == s.unbumped
  {
    hide BytesRequired;
    hide Buffers;
  }

  lemma DaemonStep(cfg: Config, d: Daemon, e: Event, d': Daemon)
    requires DaemonInv(cfg, d) && EventStep(cfg, d, e, d')
    ensures DaemonInv(cfg, d')
  {
    if e.Scheduler? {
      ExtendRun(cfg, d.states, d.actions, e.a, e.s');
      QuietStep(cfg, Last(d.states), e.a, e.s');
    }
    hide Step;
    hide IsRun;
  }

  lemma {:induction false} RunDaemon(cfg: Config, ds: seq<Daemon>, es: seq<Event>)
    requires IsDaemonRun(cfg, ds, es)
    ensures DaemonInv(cfg, ds[|es|])
    decreases |es|
  {
    if es != [] {
      var k := |es| - 1;
      assert IsDaemonRun(cfg, ds[..|es|], es[..k]);
      RunDaemon(cfg, ds[..|es|], es[..k]);
      assert EventStep(cfg, ds[k], es[k], ds[k + 1]);
      hide EventStep;
      hide DaemonInv;
      DaemonStep(cfg, ds[k], es[k], ds[k + 1]);
    }
  }

  /** Sound drain detection. If the polling loop leaves by its condition, the generator is done and has
      submitted something, every submitted job has
      exactly one metrics row and none is queued, in the dispatcher's hands, packed, or awaiting
      recording, although the loop's reads are not atomic and the queue may look empty while jobs
      are being packed. */
  lemma DrainDetectionIsSound(cfg: Config, ds: seq<Daemon>, es: seq<Event>, q: nat)
    requires IsDaemonRun(cfg, ds, es) && ds[|es|].monitor.Drained?
    ensures
      var s := Last(ds[|es|].states);
      && ds[|es|].generatorDone && s.sh.submitted > 0
      && Total(s.sh.metrics, RowHasSeq(q)) == (if q < s.sh.nextSeq then 1 else 0)
      && |s.sh.metrics| == s.sh.nextSeq == s.sh.submitted
      && s.sh.queue == [] && Hands(s.disp) == [] && s.sh.batchQueue == []
      && (forall i :: 0 <= i < |s.workers| ==> Unrecorded(s.workers[i]) == [])
  {
    hide BytesRequired;
    hide EventStep;
    RunDaemon(cfg, ds, es);
    var d := ds[|es|];
    var s := Last(d.states);
    CompletedTrailsMetrics(cfg, d.states, d.actions);
    JobCountsBalance(cfg, d.states, d.actions);
    RunAccepts(cfg, d.states, d.actions);
    JobsAreConserved(cfg, d.states, d.actions, q);
    assert Load(s, One()) == 0;
    EmptyEverywhere(s);
    NothingLoaded(s, HasSeq(q));
    BatchesAreNonEmpty(cfg, d.states, d.actions);
  }

  /** The daemon's run goes on with one more event. */
  lemma DaemonExtends(cfg: Config, ds: seq<Daemon>, es: seq<Event>, e: Event, d': Daemon)
    requires IsDaemonRun(cfg, ds, es) && EventStep(cfg, ds[|es|], e, d') && d'.states != []
    ensures IsDaemonRun(cfg, ds + [d'], es + [e])
  {
    hide EventStep;
    var ds', es' := ds + [d'], es + [e];
    forall k | 0 <= k < |es'| ensures EventStep(cfg, ds'[k], es'[k], ds'[k + 1]) {
      if k < |es| {
        assert EventStep(cfg, ds[k], es[k], ds[k + 1]);
      }
    }
  }

  /** What an undisturbed poll finds. */
  predicate LooksDrained(d: Daemon)
    requires d.states != []
  {
    var s := Last(d.states);
    d.generatorDone && s.sh.submitted > 0 && s.sh.queue == [] && s.sh.completed >= s.sh.submitted
  }

  /** The events of one whole test, its last two reads in either order. */
  function Poll(submittedFirst: bool): seq<Event> {
    [CheckDone, CheckSubmitted, CheckQueued, if submittedFirst then ReadSubmittedFirst else ReadCompletedFirst, Compare]
  }

  /** Complete drain detection. As soon as the generator is done, something has been submitted, the queue is
      empty and completed has reached submitted, the next poll that is not disturbed ends the loop. */
  lemma DrainIsDetected(cfg: Config, ds: seq<Daemon>, es: seq<Event>, submittedFirst: bool) returns (ds': seq<Daemon>)
    requires IsDaemonRun(cfg, ds, es) && ds[|es|].monitor == Check && LooksDrained(ds[|es|])
    ensures IsDaemonRun(cfg, ds', es + Poll(submittedFirst)) && ds <= ds'
    ensures ds'[|es| + 5] == ds[|es|].(monitor := Drained)
  {
    var d := ds[|es|];
    var s := Last(d.states);
    var p := Poll(submittedFirst);
    var read := if submittedFirst then ReadSubmitted(s.sh.submitted) else ReadCompleted(s.sh.completed);
    var d1, d2, d3 := d.(monitor := GeneratorWasDone), d.(monitor := SawSubmissions), d.(monitor := SawEmptyQueue);
    var d4, d5 := d.(monitor := read), d.(monitor := Drained);
    assert EventStep(cfg, d, p[0], d1) && EventStep(cfg, d1, p[1], d2) && EventStep(cfg, d2, p[2], d3);
    assert EventStep(cfg, d3, p[3], d4) && EventStep(cfg, d4, p[4], d5);
    hide EventStep;
    hide IsDaemonRun;
    DaemonRunLength(cfg, ds, es);
    DaemonExtends(cfg, ds, es, p[0], d1);
    DaemonExtends(cfg, ds + [d1], es + [p[0]], p[1], d2);
    DaemonExtends(cfg, ds + [d1] + [d2], es + [p[0]] + [p[1]], p[2], d3);
    DaemonExtends(cfg, ds + [d1] + [d2] + [d3], es + [p[0]] + [p[1]] + [p[2]], p[3], d4);
    DaemonExtends(cfg, ds + [d1] + [d2] + [d3] + [d4], es + [p[0]] + [p[1]] + [p[2]] + [p[3]], p[4], d5);
    ds' := ds + [d1] + [d2] + [d3] + [d4] + [d5];
    assert es + [p[0]] + [p[1]] + [p[2]] + [p[3]] + [p[4]] == es + p;
  }

  /** Otherwise an undisturbed poll goes back to sleep at the first operand that does not hold: that the
      generator is done, that something is submitted, that the queue is empty, and that completed has
      reached submitted, which takes two reads and a comparison. */
  lemma PollGoesBack(cfg: Config, ds: seq<Daemon>, es: seq<Event>, i: nat, submittedFirst: bool)
    requires IsDaemonRun(cfg, ds, es) && i < |ds| && ds[i].monitor == Check && !LooksDrained(ds[i])
    ensures
      var s := Last(ds[i].states);
      var n := if !ds[i].generatorDone then 1 else if s.sh.submitted == 0 then 2 else if s.sh.queue != [] then 3 else 5;
      i + n <= |es| && es[i..i + n] == Poll(submittedFirst)[..n] ==> ds[i + n] == ds[i]
  {
    var s := Last(ds[i].states);
    var n := if !ds[i].generatorDone then 1 else if s.sh.submitted == 0 then 2 else if s.sh.queue != [] then 3 else 5;
    if i + n <= |es| && es[i..i + n] == Poll(submittedFirst)[..n] {
      forall k | 0 <= k < n ensures EventStep(cfg, ds[i + k], Poll(submittedFirst)[k], ds[i + k + 1]) {
        assert es[i..i + n][k] == es[i + k];
      }
      hide IsDaemonRun;
      hide Step;
      assert EventStep(cfg, ds[i], Poll(submittedFirst)[0], ds[i + 1]);
      if n > 1 {
        assert EventStep(cfg, ds[i + 1], Poll(submittedFirst)[1], ds[i + 2]);
      }
      if n > 2 {
        assert EventStep(cfg, ds[i + 2], Poll(submittedFirst)[2], ds[i + 3]);
      }
      if n > 3 {
        assert EventStep(cfg, ds[i + 3], Poll(submittedFirst)[3], ds[i + 4]);
        assert EventStep(cfg, ds[i + 4], Poll(submittedFirst)[4], ds[i + 5]);
      }
    }
  }

  lemma DaemonRunLength(cfg: Config, ds: seq<Daemon>, es: seq<Event>)
    requires IsDaemonRun(cfg, ds, es)
    ensures |ds| == |es| + 1 && ds[|es|].states != []
  {
  }

  lemma EmptyEverywhere(s: State)
    requires Load(s, One()) == 0
    ensures s.sh.queue == [] && Hands(s.disp) == []
    ensures forall b :: b in s.sh.batchQueue ==> b == []
    ensures forall i :: 0 <= i < |s.workers| ==> Unrecorded(s.workers[i]) == []
  {
    UnitTotal(s.sh.queue);
    UnitTotal(Hands(s.disp));
    forall b | b in s.sh.batchQueue ensures b == [] {
      var k :| 0 <= k < |s.sh.batchQueue| && s.sh.batchQueue[k] == b;
      TotalBounds(s.sh.batchQueue, BatchLoad(One()), k);
      UnitTotal(b);
    }
    forall i | 0 <= i < |s.workers| ensures Unrecorded(s.workers[i]) == [] {
      TotalBounds(s.workers, WorkerLoad(One()), i);
      UnitTotal(Unrecorded(s.workers[i]));
    }
  }

  lemma NothingLoaded(s: State, w: Job -> nat)
    requires Load(s, One()) == 0
    ensures Load(s, w) == 0
  {
    EmptyEverywhere(s);
    TotalZero(s.sh.batchQueue, BatchLoad(w));
    forall pc | pc in s.workers ensures WorkerLoad(w)(pc) == 0 {
      var i :| 0 <= i < |s.workers| && s.workers[i] == pc;
    }
    TotalZero(s.workers, WorkerLoad(w));
  }
}
