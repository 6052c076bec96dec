/** Finish times of the two issue orders with fixed durations, first-in-first-out streams and no
    host cost. A schedule assigns a finish time to every operation of every lane; it is admissible
    if each operation finishes its duration after the previous one of its lane and after the record
    it waits for. */
module OverlapTiming {
  import opened Streams
  import opened Wrappers
  import Pipeline
  import SplitStream

  /** How long each piece of work takes. */
  type Durations = Work -> real

  ghost predicate NonNegative(dur: Durations) {
    forall w :: dur(w) >= 0.0
  }

  function Cost(op: Op, dur: Durations): real {
    if op.Do? then dur(op.work) else 0.0
  }

  function Max(a: real, b: real): real {
    if a >= b then a else b
  }

  /** Operation `op` at position `q` of a lane finishes its duration after its predecessor in the
      lane, and not before the record it waits for. */
  ghost predicate Respects(f: (Lane, nat) -> real, lane: Lane, q: nat, op: Op, dur: Durations) {
    && f(lane, q) >= (if q == 0 then 0.0 else f(lane, q - 1)) + Cost(op, dur)
    && (op.Hold? && op.dep.Some? ==> f(lane, q) >= f(op.dep.value.lane, op.dep.value.pos))
  }

  // ----- durations per job and their sums

  function In(dur: Durations, i: nat): real { dur(CopyA(i)) + dur(CopyB(i)) }

  function Mid(dur: Durations, i: nat): real { dur(Kernel(i)) }

  function Out(dur: Durations, i: nat): real { dur(CopyC(i)) }

  /** Total of a stage over the jobs `a <= x < b`. */
  function Sum(f: nat -> real, a: nat, b: nat): real {
    if b <= a then 0.0 else Sum(f, a, b - 1) + f(b - 1)
  }

  function InOf(dur: Durations): nat -> real { (i: nat) => In(dur, i) }

  function MidOf(dur: Durations): nat -> real { (i: nat) => Mid(dur, i) }

  function OutOf(dur: Durations): nat -> real { (i: nat) => Out(dur, i) }

  // ----- the three-stream order

  function OpAt(lane: Lane, q: nat): Op {
    match lane
    case H => Pipeline.OpH(q)
    case C => Pipeline.OpC(Pipeline.Base(0, 0, 0), q)
    case D => Pipeline.OpD(Pipeline.Base(0, 0, 0), q)
  }

  /** Admissible finish times for `n` jobs in the three-stream order. */
  ghost predicate Admissible(n: nat, f: (Lane, nat) -> real, dur: Durations) {
    forall lane, q: nat :: q < 3 * n ==> Respects(f, lane, q, OpAt(lane, q), dur)
  }

  /** These are the operations a worker's lanes hold once it has issued its first batch. */
  lemma TimedLanesAreIssued<V(!new)>(ws: seq<Pipeline.Worker<V>>, acts: seq<Pipeline.Action<V>>, lane: Lane, q: nat)
    requires Pipeline.IsRun(ws, acts)
    requires
      var w := ws[|acts|];
      w.base == Pipeline.Base(0, 0, 0) && w.Issued() == 10 * w.n && q < 3 * w.n
    ensures
      var w := ws[|acts|];
      |w.m.Q(lane).ops| == 3 * w.n && w.m.Q(lane).ops[q] == OpAt(lane, q)
  {
    Pipeline.RunInv(ws, acts);
    var w := ws[|acts|];
    assert Pipeline.LanesInv(w);
    hide Pipeline.Inv;
    Pipeline.CountsAt(w.n, 0);
    hide Pipeline.CountH;
    hide Pipeline.CountC;
    hide Pipeline.CountD;
    hide Pipeline.LaneIs;
    hide Pipeline.OpH;
    hide Pipeline.OpC;
    hide Pipeline.OpD;
    match lane
    case H => Pipeline.LaneAt(w.m.h, 0, 3 * w.n, Pipeline.HOps(), q);
    case C => Pipeline.LaneAt(w.m.c, 0, 3 * w.n, Pipeline.COps(w.base), q);
    case D => Pipeline.LaneAt(w.m.d, 0, 3 * w.n, Pipeline.DOps(w.base), q);
  }

  /** The schedule that starts every operation as soon as its lane and its wait allow. */
  function Earliest(lane: Lane, q: nat, dur: Durations): real
    decreases (match lane case H => 0 case C => 1 case D => 2), q
  {
    var before := if q == 0 then 0.0 else Earliest(lane, q - 1, dur);
    match lane
    case H => before + Cost(OpAt(H, q), dur)
    case C => if q % 3 == 0 then Max(before, Earliest(H, q + 2, dur)) else before + Cost(OpAt(C, q), dur)
    case D => if q % 3 == 0 then Max(before, Earliest(C, q + 2, dur)) else before + Cost(OpAt(D, q), dur)
  }

  lemma EarliestIsAdmissible(n: nat, dur: Durations)
    requires NonNegative(dur)
    ensures Admissible(n, EarliestSchedule(dur), dur)
  {
    forall lane, q: nat | q < 3 * n ensures Respects(EarliestSchedule(dur), lane, q, OpAt(lane, q), dur) {
      match lane
      case H =>
      case C =>
      case D =>
    }
  }

  function EarliestSchedule(dur: Durations): (Lane, nat) -> real {
    (lane: Lane, q: nat) => Earliest(lane, q, dur)
  }

  /** Which operations wait, and for what. */
  lemma Waits(q: nat)
    ensures !OpAt(H, q).Hold?
    ensures if q % 3 == 0 then OpAt(C, q) == Hold(Some(Ticket(H, q + 2))) else !OpAt(C, q).Hold?
    ensures if q % 3 == 0 then OpAt(D, q) == Hold(Some(Ticket(C, q + 2))) else !OpAt(D, q).Hold?
  {
  }

  /** What admissibility says of one operation, in terms of its predecessor and its wait. */
  lemma NotBefore(n: nat, f: (Lane, nat) -> real, dur: Durations, lane: Lane, q: nat)
    requires Admissible(n, f, dur) && q < 3 * n
    ensures f(lane, q) >= (if q == 0 then 0.0 else f(lane, q - 1)) + Cost(OpAt(lane, q), dur)
    ensures q % 3 == 0 && lane == C ==> f(C, q) >= f(H, q + 2)
    ensures q % 3 == 0 && lane == D ==> f(D, q) >= f(C, q + 2)
  {
    assert Respects(f, lane, q, OpAt(lane, q), dur);
    Waits(q);
    hide Admissible;
    hide OpAt;
  }

  lemma {:induction false} NothingIsEarlier(n: nat, f: (Lane, nat) -> real, dur: Durations, lane: Lane, q: nat)
    requires Admissible(n, f, dur) && q < 3 * n
    ensures f(lane, q) >= Earliest(lane, q, dur)
    decreases (match lane case H => 0 case C => 1 case D => 2), q
  {
    hide Admissible;
    NotBefore(n, f, dur, lane, q);
    Waits(q);
    hide OpAt;
    if q > 0 {
      NothingIsEarlier(n, f, dur, lane, q - 1);
    }
    if q % 3 == 0 {
      match lane
      case H =>
      case C => NothingIsEarlier(n, f, dur, H, q + 2);
      case D => NothingIsEarlier(n, f, dur, C, q + 2);
    }
  }

  /** Finish times per job: kernel `i` starts when its inputs are in and kernel `i - 1` is done. */
  function KernelDone(i: nat, dur: Durations): real {
    Max(if i == 0 then 0.0 else KernelDone(i - 1, dur), Sum(InOf(dur), 0, i + 1)) + Mid(dur, i)
  }

  function ResultDone(i: nat, dur: Durations): real {
    Max(if i == 0 then 0.0 else ResultDone(i - 1, dur), KernelDone(i, dur)) + Out(dur, i)
  }

  lemma {:induction false} EarliestPerJob(i: nat, dur: Durations)
    requires NonNegative(dur)
    ensures Earliest(H, 3 * i + 2, dur) == Sum(InOf(dur), 0, i + 1)
    ensures Earliest(C, 3 * i + 2, dur) == KernelDone(i, dur)
    ensures Earliest(D, 3 * i + 2, dur) == ResultDone(i, dur)
  {
    hide Earliest;
    hide NonNegative;
    hide Max;
    hide Mid;
    hide Out;
    if i > 0 {
      EarliestPerJob(i - 1, dur);
    }
    CopyInLane(i, dur);
    KernelLane(i, dur);
    ResultLane(i, dur);
    assert Sum(InOf(dur), 0, i + 1) == Sum(InOf(dur), 0, i) + In(dur, i);
    hide In;
  }

  lemma CopyInLane(i: nat, dur: Durations)
    ensures Earliest(H, 3 * i + 2, dur) == (if i == 0 then 0.0 else Earliest(H, 3 * (i - 1) + 2, dur)) + In(dur, i)
  {
    assert OpAt(H, 3 * i) == Do(CopyA(i)) && OpAt(H, 3 * i + 1) == Do(CopyB(i)) && OpAt(H, 3 * i + 2) == Mark(HDone(i));
    assert Earliest(H, 3 * i + 1, dur) == Earliest(H, 3 * i, dur) + dur(CopyB(i));
  }

  lemma KernelLane(i: nat, dur: Durations)
    ensures Earliest(C, 3 * i + 2, dur)
            == Max(if i == 0 then 0.0 else Earliest(C, 3 * (i - 1) + 2, dur), Earliest(H, 3 * i + 2, dur)) + Mid(dur, i)
  {
    assert OpAt(C, 3 * i + 1) == Do(Kernel(i)) && OpAt(C, 3 * i + 2) == Mark(KDone(i));
    assert Earliest(C, 3 * i + 1, dur) == Earliest(C, 3 * i, dur) + dur(Kernel(i));
  }

  lemma ResultLane(i: nat, dur: Durations)
    ensures Earliest(D, 3 * i + 2, dur)
            == Max(if i == 0 then 0.0 else Earliest(D, 3 * (i - 1) + 2, dur), Earliest(C, 3 * i + 2, dur)) + Out(dur, i)
  {
    assert OpAt(D, 3 * i + 1) == Do(CopyC(i)) && OpAt(D, 3 * i + 2) == Mark(Done(i));
    assert Earliest(D, 3 * i + 1, dur) == Earliest(D, 3 * i, dur) + dur(CopyC(i));
  }

  // ----- the critical path

  /** Copy in jobs 0..i, run kernels i..j, copy out results j..n-1. */
  function Path(n: nat, i: nat, j: nat, dur: Durations): real {
    Sum(InOf(dur), 0, i + 1) + Sum(MidOf(dur), i, j + 1) + Sum(OutOf(dur), j, n)
  }

  lemma {:induction false} KernelPaths(m: nat, i: nat, dur: Durations)
    requires i <= m
    ensures Sum(InOf(dur), 0, i + 1) + Sum(MidOf(dur), i, m + 1) <= KernelDone(m, dur)
  {
    if i < m {
      KernelPaths(m - 1, i, dur);
    } else {
      assert Sum(MidOf(dur), m, m + 1) == Sum(MidOf(dur), m, m) + Mid(dur, m);
    }
  }

  lemma {:induction false} SomeKernelPath(m: nat, dur: Durations) returns (i: nat)
    requires NonNegative(dur)
    ensures i <= m && Sum(InOf(dur), 0, i + 1) + Sum(MidOf(dur), i, m + 1) == KernelDone(m, dur)
  {
    SumNonNegative(InOf(dur), 0, m + 1);
    if m > 0 && KernelDone(m - 1, dur) >= Sum(InOf(dur), 0, m + 1) {
      i := SomeKernelPath(m - 1, dur);
    } else {
      i := m;
      assert Sum(MidOf(dur), m, m + 1) == Sum(MidOf(dur), m, m) + Mid(dur, m);
    }
  }

  lemma {:induction false} SumNonNegative(f: nat -> real, a: nat, b: nat)
    requires forall x: nat :: f(x) >= 0.0
    ensures Sum(f, a, b) >= 0.0
  {
    if b > a {
      SumNonNegative(f, a, b - 1);
    }
  }

  lemma {:induction false} ResultPaths(n: nat, i: nat, j: nat, dur: Durations)
    requires i <= j < n
    ensures Path(n, i, j, dur) <= ResultDone(n - 1, dur)
    decreases n
  {
    if j < n - 1 {
      ResultPaths(n - 1, i, j, dur);
    } else {
      KernelPaths(j, i, dur);
      assert Sum(OutOf(dur), j, n) == Sum(OutOf(dur), j, j) + Out(dur, j);
    }
  }

  lemma SumOfOne(f: nat -> real, x: nat)
    ensures Sum(f, x, x + 1) == f(x)
  {
    assert Sum(f, x, x) == 0.0;
  }

  /** The last result waits for the result lane: the path goes on along it. */
  lemma PathGoesOn(n: nat, i: nat, j: nat, dur: Durations)
    requires i <= j < n - 1 && ResultDone(n - 2, dur) >= KernelDone(n - 1, dur)
    ensures Path(n, i, j, dur) - Path(n - 1, i, j, dur) == ResultDone(n - 1, dur) - ResultDone(n - 2, dur)
  {
    hide KernelDone;
    var o := OutOf(dur);
    assert Sum(o, j, n) == Sum(o, j, n - 1) + Out(dur, n - 1);
    hide Sum;
    hide Out;
  }

  /** It waits for the kernel lane: the path turns there. */
  lemma PathTurns(n: nat, i: nat, dur: Durations)
    requires i < n && KernelDone(n - 1, dur) >= (if n > 1 then ResultDone(n - 2, dur) else 0.0)
    ensures Path(n, i, n - 1, dur) - Sum(InOf(dur), 0, i + 1) - Sum(MidOf(dur), i, n) == ResultDone(n - 1, dur)
            - KernelDone(n - 1, dur)
  {
    hide KernelDone;
    SumOfOne(OutOf(dur), n - 1);
    hide Sum;
    hide Out;
  }

  lemma {:induction false} SomeResultPath(m: nat, dur: Durations) returns (i: nat, j: nat)
    requires NonNegative(dur)
    ensures i <= j <= m && Path(m + 1, i, j, dur) == ResultDone(m, dur)
  {
    hide *;
    KernelDoneNonNegative(m, dur);
    if m > 0 && ResultDone(m - 1, dur) >= KernelDone(m, dur) {
      i, j := SomeResultPath(m - 1, dur);
      PathGoesOn(m + 1, i, j, dur);
    } else {
      j := m;
      i := SomeKernelPath(m, dur);
      PathTurns(m + 1, i, dur);
    }
  }

  lemma KernelDoneNonNegative(i: nat, dur: Durations)
    requires NonNegative(dur)
    ensures KernelDone(i, dur) >= 0.0
  {
    SumNonNegative(InOf(dur), 0, i + 1);
  }

  /** The makespan of the three-stream order is the critical path: the schedule `EarliestSchedule`
      is admissible and ends at `ResultDone(n - 1)`, no admissible schedule `f` ends sooner, and that
      time is the largest of the path lengths over i <= j, attained by one of the paths. */
  lemma MakespanIsCriticalPath(n: nat, f: (Lane, nat) -> real, dur: Durations)
    requires n > 0 && NonNegative(dur)
    ensures Admissible(n, EarliestSchedule(dur), dur) && EarliestSchedule(dur)(D, 3 * n - 1) == ResultDone(n - 1, dur)
    ensures Admissible(n, f, dur) ==> f(D, 3 * n - 1) >= ResultDone(n - 1, dur)
    ensures forall i: nat, j: nat :: i <= j < n ==> Path(n, i, j, dur) <= ResultDone(n - 1, dur)
    ensures exists i: nat, j: nat :: i <= j < n && Path(n, i, j, dur) == ResultDone(n - 1, dur)
  {
    hide *;
    EarliestMakespan(n, dur);
    if Admissible(n, f, dur) {
      NothingIsEarlier(n, f, dur, D, 3 * n - 1);
    }
    LongestPath(n, dur);
  }

  lemma EarliestMakespan(n: nat, dur: Durations)
    requires n > 0 && NonNegative(dur)
    ensures Admissible(n, EarliestSchedule(dur), dur)
    ensures EarliestSchedule(dur)(D, 3 * n - 1) == Earliest(D, 3 * n - 1, dur) == ResultDone(n - 1, dur)
  {
    hide Admissible;
    hide ResultDone;
    hide Earliest;
    EarliestPerJob(n - 1, dur);
    EarliestIsAdmissible(n, dur);
    assert 3 * (n - 1) + 2 == 3 * n - 1;
  }

  lemma LongestPath(n: nat, dur: Durations)
    requires n > 0 && NonNegative(dur)
    ensures forall i: nat, j: nat :: i <= j < n ==> Path(n, i, j, dur) <= ResultDone(n - 1, dur)
    ensures exists i: nat, j: nat :: i <= j < n && Path(n, i, j, dur) == ResultDone(n - 1, dur)
  {
    hide Path;
    hide ResultDone;
    forall i: nat, j: nat | i <= j < n ensures Path(n, i, j, dur) <= ResultDone(n - 1, dur) {
      ResultPaths(n, i, j, dur);
    }
    var i, j := SomeResultPath(n - 1, dur);
  }

  // ----- the single-copy-stream order

  function SplitOpAt(lane: Lane, q: nat): Op {
    if lane == H then SplitStream.OpH(q) else SplitStream.OpC(q)
  }

  /** Admissible finish times for `n` jobs with one copy stream. */
  ghost predicate SplitAdmissible(n: nat, f: (Lane, nat) -> real, dur: Durations) {
    forall lane, q: nat :: (lane == H && q < 5 * n) || (lane == C && q < 3 * n) ==>
      Respects(f, lane, q, SplitOpAt(lane, q), dur)
  }

  /** These are the operations the benchmark's two lanes hold once everything is issued. */
  lemma SplitLanesAreIssued<V(!new)>(bs: seq<SplitStream.Bench<V>>, acts: seq<Option<Lane>>, lane: Lane, q: nat)
    requires SplitStream.IsRun(bs, acts) && lane != D
    requires bs[|acts|].pc == 8 * bs[|acts|].n && q < (if lane == H then 5 else 3) * bs[|acts|].n
    ensures
      var b := bs[|acts|];
      |b.m.Q(lane).ops| == (if lane == H then 5 else 3) * b.n && b.m.Q(lane).ops[q] == SplitOpAt(lane, q)
  {
    SplitStream.RunInv(bs, acts);
    var b := bs[|acts|];
    assert SplitStream.LanesInv(b);
    hide SplitStream.Inv;
    SplitStream.CountsAt(b.n, 0);
    hide SplitStream.CountH;
    hide SplitStream.CountC;
    hide SplitStream.OpH;
    hide SplitStream.OpC;
    if lane == H {
      Pipeline.LaneAt(b.m.h, 0, 5 * b.n, SplitStream.HOps(), q);
    } else {
      Pipeline.LaneAt(b.m.c, 0, 3 * b.n, SplitStream.COps(), q);
    }
  }

  function JobTime(dur: Durations, i: nat): real { In(dur, i) + Mid(dur, i) + Out(dur, i) }

  /** Everything one after the other. */
  function SerialTime(n: nat, dur: Durations): real {
    if n == 0 then 0.0 else SerialTime(n - 1, dur) + JobTime(dur, n - 1)
  }

  lemma {:induction false} SplitIsSerial(n: nat, m: nat, f: (Lane, nat) -> real, dur: Durations)
    requires SplitAdmissible(n, f, dur) && 0 < m <= n
    ensures f(H, 5 * m - 1) >= SerialTime(m, dur)
  {
    if m > 1 {
      SplitIsSerial(n, m - 1, f, dur);
    }
    SplitJob(n, m - 1, f, dur);
  }

  /** One job: its inputs follow the previous result, its kernel its inputs, its result its kernel. */
  lemma SplitJob(n: nat, i: nat, f: (Lane, nat) -> real, dur: Durations)
    requires SplitAdmissible(n, f, dur) && i < n
    ensures f(H, 5 * i + 4) >= (if i == 0 then 0.0 else f(H, 5 * (i - 1) + 4)) + JobTime(dur, i)
  {
    SplitStream.OpsAt(i);
    assert Respects(f, H, 5 * i, SplitOpAt(H, 5 * i), dur);
    assert Respects(f, H, 5 * i + 1, SplitOpAt(H, 5 * i + 1), dur);
    assert Respects(f, H, 5 * i + 2, SplitOpAt(H, 5 * i + 2), dur);
    assert Respects(f, C, 3 * i, SplitOpAt(C, 3 * i), dur);
    assert Respects(f, C, 3 * i + 1, SplitOpAt(C, 3 * i + 1), dur);
    assert Respects(f, C, 3 * i + 2, SplitOpAt(C, 3 * i + 2), dur);
    assert Respects(f, H, 5 * i + 3, SplitOpAt(H, 5 * i + 3), dur);
    assert Respects(f, H, 5 * i + 4, SplitOpAt(H, 5 * i + 4), dur);
  }

  /** Finish of operation `c` of job `i` on the copy stream when everything runs one after the other. */
  function CopyFinish(i: nat, c: nat, dur: Durations): real {
    SerialTime(i, dur)
    + (if c == 0 then dur(CopyA(i)) else if c <= 2 then In(dur, i) else if c == 3 then In(dur, i) + Mid(dur, i)
       else JobTime(dur, i))
  }

  function KernelFinish(i: nat, c: nat, dur: Durations): real {
    SerialTime(i, dur) + In(dur, i) + (if c == 0 then 0.0 else Mid(dur, i))
  }

  /** The schedule that runs everything one after the other. */
  function SerialFinish(dur: Durations): (Lane, nat) -> real {
    (lane: Lane, q: nat) => if lane == H then CopyFinish(q / 5, q % 5, dur) else KernelFinish(q / 3, q % 3, dur)
  }

  lemma SerialAt(i: nat, c: nat, dur: Durations)
    ensures c < 5 ==> SerialFinish(dur)(H, 5 * i + c) == CopyFinish(i, c, dur)
    ensures c < 3 ==> SerialFinish(dur)(C, 3 * i + c) == KernelFinish(i, c, dur)
  {
    hide CopyFinish;
    hide KernelFinish;
    assert c < 5 ==> (5 * i + c) / 5 == i && (5 * i + c) % 5 == c;
    assert c < 3 ==> (3 * i + c) / 3 == i && (3 * i + c) % 3 == c;
  }

  lemma SerialIsAdmissible(n: nat, dur: Durations)
    requires NonNegative(dur)
    ensures SplitAdmissible(n, SerialFinish(dur), dur)
  {
    var f := SerialFinish(dur);
    forall lane, q: nat | (lane == H && q < 5 * n) || (lane == C && q < 3 * n)
      ensures Respects(f, lane, q, SplitOpAt(lane, q), dur)
    {
      if lane == H {
        SerialCopyOp(q / 5, q % 5, dur);
      } else {
        SerialKernelOp(q / 3, q % 3, dur);
      }
    }
  }

  /** What operation `c` of a job costs on the copy stream. */
  function CopyCost(i: nat, c: nat, dur: Durations): real {
    if c == 0 then dur(CopyA(i)) else if c == 1 then dur(CopyB(i)) else if c == 4 then Out(dur, i) else 0.0
  }

  lemma SplitOpCosts(i: nat, c: nat, dur: Durations)
    ensures c < 5 ==> Cost(SplitOpAt(H, 5 * i + c), dur) == CopyCost(i, c, dur)
    ensures c < 5 && SplitOpAt(H, 5 * i + c).Hold? ==>
              c == 3 && SplitOpAt(H, 5 * i + c) == Hold(Some(Ticket(C, 3 * i + 2)))
    ensures c < 3 ==> Cost(SplitOpAt(C, 3 * i + c), dur) == (if c == 1 then Mid(dur, i) else 0.0)
    ensures c < 3 && SplitOpAt(C, 3 * i + c).Hold? ==>
              c == 0 && SplitOpAt(C, 3 * i + c) == Hold(Some(Ticket(H, 5 * i + 2)))
  {
    SplitStream.OpsAt(i);
    hide SplitStream.OpH;
    hide SplitStream.OpC;
  }

  lemma CopyChain(i: nat, c: nat, dur: Durations)
    requires NonNegative(dur) && c < 5
    ensures CopyFinish(i, c, dur) >= (if c > 0 then CopyFinish(i, c - 1, dur)
                                      else if i > 0 then CopyFinish(i - 1, 4, dur) else 0.0)
                                     + CopyCost(i, c, dur)
    ensures CopyFinish(i, 3, dur) == KernelFinish(i, 2, dur)
  {
    assert dur(CopyA(i)) >= 0.0 && dur(CopyB(i)) >= 0.0 && dur(Kernel(i)) >= 0.0 && dur(CopyC(i)) >= 0.0;
    assert i > 0 ==> SerialTime(i, dur) == SerialTime(i - 1, dur) + JobTime(dur, i - 1);
    hide SerialTime;
  }

  lemma KernelChain(i: nat, c: nat, dur: Durations)
    requires NonNegative(dur) && c < 3
    ensures KernelFinish(i, c, dur) >= (if c > 0 then KernelFinish(i, c - 1, dur)
                                        else if i > 0 then KernelFinish(i - 1, 2, dur) else 0.0)
                                       + (if c == 1 then Mid(dur, i) else 0.0)
    ensures KernelFinish(i, 0, dur) == CopyFinish(i, 2, dur)
  {
    assert In(dur, i) >= 0.0 && Mid(dur, i) >= 0.0;
    assert i > 0 ==> SerialTime(i, dur) == SerialTime(i - 1, dur) + JobTime(dur, i - 1) && Out(dur, i - 1) >= 0.0;
    hide SerialTime;
  }

  lemma SerialCopyOp(i: nat, c: nat, dur: Durations)
    requires NonNegative(dur) && c < 5
    ensures Respects(SerialFinish(dur), H, 5 * i + c, SplitOpAt(H, 5 * i + c), dur)
  {
    hide SerialFinish;
    hide CopyFinish;
    hide KernelFinish;
    hide SplitOpAt;
    hide Cost;
    hide CopyCost;
    SerialAt(i, c, dur);
    SerialAt(i, 2, dur);
    if c > 0 {
      SerialAt(i, c - 1, dur);
    } else if i > 0 {
      SerialAt(i - 1, 4, dur);
    }
    SplitOpCosts(i, c, dur);
    CopyChain(i, c, dur);
  }

  lemma SerialKernelOp(i: nat, c: nat, dur: Durations)
    requires NonNegative(dur) && c < 3
    ensures Respects(SerialFinish(dur), C, 3 * i + c, SplitOpAt(C, 3 * i + c), dur)
  {
    hide SerialFinish;
    hide CopyFinish;
    hide KernelFinish;
    hide SplitOpAt;
    hide Cost;
    SerialAt(i, c, dur);
    SerialAt(i, 2, dur);
    if c > 0 {
      SerialAt(i, c - 1, dur);
    } else if i > 0 {
      SerialAt(i - 1, 2, dur);
    }
    SplitOpCosts(i, c, dur);
    KernelChain(i, c, dur);
  }

  lemma SerialEnd(n: nat, dur: Durations)
    requires n > 0
    ensures SerialFinish(dur)(H, 5 * n - 1) == SerialTime(n, dur)
  {
    SerialAt(n - 1, 4, dur);
    assert 5 * (n - 1) + 4 == 5 * n - 1;
    hide SerialFinish;
  }

  /** With one copy stream the earliest finish is the sum of all durations, attained by
      `SerialFinish`: nothing overlaps, whatever the admissible schedule `f`. */
  lemma SplitMakespanIsSerial(n: nat, f: (Lane, nat) -> real, dur: Durations)
    requires n > 0 && NonNegative(dur)
    ensures SplitAdmissible(n, SerialFinish(dur), dur) && SerialFinish(dur)(H, 5 * n - 1) == SerialTime(n, dur)
    ensures SplitAdmissible(n, f, dur) ==> f(H, 5 * n - 1) >= SerialTime(n, dur)
  {
    hide *;
    SerialIsAdmissible(n, dur);
    SerialEnd(n, dur);
    if SplitAdmissible(n, f, dur) {
      SplitIsSerial(n, n, f, dur);
    }
  }

  // ----- comparison

  lemma {:induction false} KernelsWithinSerial(i: nat, dur: Durations)
    requires NonNegative(dur)
    ensures KernelDone(i, dur) <= SerialTime(i, dur) + In(dur, i) + Mid(dur, i)
    ensures Sum(InOf(dur), 0, i + 1) <= SerialTime(i, dur) + In(dur, i)
  {
    if i > 0 {
      KernelsWithinSerial(i - 1, dur);
    }
  }

  lemma {:induction false} ResultsWithinSerial(n: nat, dur: Durations)
    requires n > 0 && NonNegative(dur)
    ensures ResultDone(n - 1, dur) <= SerialTime(n, dur)
  {
    KernelsWithinSerial(n - 1, dur);
    if n > 1 {
      ResultsWithinSerial(n - 1, dur);
    }
  }

  /** Dominance: for any durations the earliest schedule of the double-buffered order ends no later
      than any admissible schedule of the single-copy-stream order. */
  lemma DoubleBufferingDominates(n: nat, f: (Lane, nat) -> real, dur: Durations)
    requires n > 0 && NonNegative(dur) && SplitAdmissible(n, f, dur)
    ensures Admissible(n, EarliestSchedule(dur), dur)
    ensures EarliestSchedule(dur)(D, 3 * n - 1) <= f(H, 5 * n - 1)
  {
    hide *;
    EarliestMakespan(n, dur);
    ResultsWithinSerial(n, dur);
    SplitIsSerial(n, n, f, dur);
  }

  /** All jobs take the same times. */
  ghost predicate EqualJobs(dur: Durations, h: real, k: real, d: real) {
    forall i: nat :: In(dur, i) == h && Mid(dur, i) == k && Out(dur, i) == d
  }

  lemma NonNegativeStages(dur: Durations, h: real, k: real, d: real)
    requires NonNegative(dur) && EqualJobs(dur, h, k, d)
    ensures h >= 0.0 && k >= 0.0 && d >= 0.0
  {
    assert In(dur, 0) == h && Mid(dur, 0) == k && Out(dur, 0) == d;
  }

  /** `m` times `x`, by repeated addition. */
  function Times(m: nat, x: real): real {
    if m == 0 then 0.0 else Times(m - 1, x) + x
  }

  lemma {:induction false} TimesIsProduct(m: nat, x: real)
    ensures Times(m, x) == m as real * x
  {
    if m > 0 {
      TimesIsProduct(m - 1, x);
      var p := (m - 1) as real;
      assert m as real == p + 1.0;
      assert (p + 1.0) * x == p * x + x;
    }
  }

  lemma {:induction false} TimesMonotone(m: nat, x: real, y: real)
    requires x <= y
    ensures Times(m, x) <= Times(m, y)
  {
    if m > 0 {
      TimesMonotone(m - 1, x, y);
    }
  }

  lemma {:induction false} EqualKernels(m: nat, dur: Durations, h: real, k: real, d: real)
    requires NonNegative(dur) && EqualJobs(dur, h, k, d)
    ensures Sum(InOf(dur), 0, m + 1) == Times(m + 1, h)
    ensures KernelDone(m, dur) == h + k + Times(m, Max(h, k))
  {
    NonNegativeStages(dur, h, k, d);
    assert In(dur, m) == h && Mid(dur, m) == k;
    assert Sum(InOf(dur), 0, m + 1) == Sum(InOf(dur), 0, m) + h;
    hide EqualJobs;
    hide NonNegative;
    hide In;
    hide Mid;
    if m > 0 {
      EqualKernels(m - 1, dur, h, k, d);
      assert KernelDone(m, dur) == Max(KernelDone(m - 1, dur), Sum(InOf(dur), 0, m + 1)) + k;
      TimesMonotone(m, h, Max(h, k));
    } else {
      assert Times(1, h) == Times(0, h) + h;
    }
  }

  lemma {:induction false} EqualResults(m: nat, dur: Durations, h: real, k: real, d: real)
    requires NonNegative(dur) && EqualJobs(dur, h, k, d)
    ensures ResultDone(m, dur) == h + k + d + Times(m, Max(Max(h, k), d))
  {
    NonNegativeStages(dur, h, k, d);
    EqualKernels(m, dur, h, k, d);
    assert Out(dur, m) == d;
    hide EqualJobs;
    hide NonNegative;
    hide Out;
    hide KernelDone;
    if m > 0 {
      EqualResults(m - 1, dur, h, k, d);
      TimesMonotone(m - 1, Max(h, k), Max(Max(h, k), d));
    }
  }

  lemma {:induction false} EqualSerial(n: nat, dur: Durations, h: real, k: real, d: real)
    requires EqualJobs(dur, h, k, d)
    ensures SerialTime(n, dur) == Times(n, h + k + d)
  {
    if n > 0 {
      EqualSerial(n - 1, dur, h, k, d);
      assert In(dur, n - 1) == h && Mid(dur, n - 1) == k && Out(dur, n - 1) == d;
      hide EqualJobs;
    }
  }

  /** Equal jobs: the double-buffered order takes h + k + d + (n - 1) * max(h, k, d), the
      single-copy-stream order n * (h + k + d). */
  lemma EqualJobsMakespan(n: nat, dur: Durations, h: real, k: real, d: real)
    requires n > 0 && NonNegative(dur) && EqualJobs(dur, h, k, d)
    ensures EarliestSchedule(dur)(D, 3 * n - 1) == h + k + d + (n - 1) as real * Max(Max(h, k), d)
    ensures SerialFinish(dur)(H, 5 * n - 1) == n as real * (h + k + d)
  {
    hide *;
    EarliestMakespan(n, dur);
    SerialEnd(n, dur);
    EqualResults(n - 1, dur, h, k, d);
    EqualSerial(n, dur, h, k, d);
    TimesIsProduct(n - 1, Max(Max(h, k), d));
    TimesIsProduct(n, h + k + d);
  }
}
