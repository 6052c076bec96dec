/** The double-buffered three-stream pipeline of a worker, over any number of batches that reuse
    the same streams, event pool and buffer slots. */
module Pipeline {
  import opened Streams
  import opened Wrappers

  // ----- the host program of a batch

  /** Command `c` of job `i`: enqueue its host-to-device copies, then its kernel, then the copy of
      its result. */
  function JobCmd(i: nat, c: nat): Cmd
    requires c < 10
  {
    if c == 0 then Fill(i)
    else if c == 1 then Launch(H, CopyA(i))
    else if c == 2 then Launch(H, CopyB(i))
    else if c == 3 then RecordEvent(H, HDone(i))
    else if c == 4 then WaitEvent(C, HDone(i))
    else if c == 5 then Launch(C, Kernel(i))
    else if c == 6 then RecordEvent(C, KDone(i))
    else if c == 7 then WaitEvent(D, KDone(i))
    else if c == 8 then Launch(D, CopyC(i))
    else RecordEvent(D, Done(i))
  }

  function CopyInCmds(i: nat): seq<Cmd> {
    [JobCmd(i, 0), JobCmd(i, 1), JobCmd(i, 2), JobCmd(i, 3)]
  }

  function ComputeCmds(i: nat): seq<Cmd> {
    [JobCmd(i, 4), JobCmd(i, 5), JobCmd(i, 6), JobCmd(i, 7), JobCmd(i, 8), JobCmd(i, 9)]
  }

  /** All enqueueing commands of a batch: job after job. */
  function IssueOrder(n: nat): (cmds: seq<Cmd>)
    ensures |cmds| == 10 * n
  {
    if n == 0 then [] else IssueOrder(n - 1) + CopyInCmds(n - 1) + ComputeCmds(n - 1)
  }

  lemma {:induction false} IssueOrderAt(n: nat, i: nat, c: nat)
    requires i < n && c < 10
    ensures IssueOrder(n)[10 * i + c] == JobCmd(i, c)
  {
    if i < n - 1 {
      IssueOrderAt(n - 1, i, c);
    }
  }

  function SyncOrder(n: nat): seq<Cmd> {
    seq(n, i requires 0 <= i < n => Sync(Done(i)))
  }

  /** What the host does for a batch that runs to its end. */
  function FullProgram(n: nat): seq<Cmd> {
    IssueOrder(n) + SyncOrder(n)
  }

  /** A batch abandoned after `k` commands drains the device before the worker goes on. */
  function AbandonedProgram(n: nat, k: nat): seq<Cmd>
    requires k <= 11 * n
  {
    FullProgram(n)[..k] + [DeviceSync]
  }

  method EnqueueCopies(i: nat) returns (cmds: seq<Cmd>)
    ensures cmds == CopyInCmds(i)
  {
    cmds := [Fill(i)];
    cmds := cmds + [Launch(H, CopyA(i))];
    cmds := cmds + [Launch(H, CopyB(i))];
    cmds := cmds + [RecordEvent(H, HDone(i))];
  }

  method EnqueueKernelAndResult(i: nat) returns (cmds: seq<Cmd>)
    ensures cmds == ComputeCmds(i)
  {
    cmds := [WaitEvent(C, HDone(i))];
    cmds := cmds + [Launch(C, Kernel(i))];
    cmds := cmds + [RecordEvent(C, KDone(i))];
    cmds := cmds + [WaitEvent(D, KDone(i))];
    cmds := cmds + [Launch(D, CopyC(i))];
    cmds := cmds + [RecordEvent(D, Done(i))];
  }

  /** The enqueue loop of a non-empty batch as written, with the copies of job 0 before the loop and
      those of job i+1 at the end of iteration i, issues job after job. */
  method EnqueueBatch(n: nat) returns (cmds: seq<Cmd>)
    requires n > 0
    ensures cmds == IssueOrder(n)
  {
    cmds := EnqueueCopies(0);
    for i := 0 to n
      invariant cmds == if i < n then IssueOrder(i) + CopyInCmds(i) else IssueOrder(n)
    {
      var stage := EnqueueKernelAndResult(i);
      cmds := cmds + stage;
      if i + 1 < n {
        var next := EnqueueCopies(i + 1);
        cmds := cmds + next;
      }
    }
  }

  // ----- the worker

  /** Lengths of the lanes when the current batch began. */
  datatype Base = Base(h: nat, c: nat, d: nat)

  /** `pc` counts the host commands issued for the current batch of `n` jobs; a batch with
      `abandonAt` set is given up after that many commands. */
  datatype Worker<!V> = Worker(m: Machine<V>, n: nat, abandonAt: Option<nat>, pc: nat, inp: Inputs<V>, base: Base)
  {
    predicate Valid() {
      abandonAt.Some? ==> abandonAt.value <= 11 * n
    }

    function Prog(): seq<Cmd>
      requires Valid()
    {
      if abandonAt.Some? then AbandonedProgram(n, abandonAt.value) else FullProgram(n)
    }

    /** Number of enqueueing commands in the program. */
    function Enq(): nat {
      if abandonAt.Some? && abandonAt.value < 10 * n then abandonAt.value else 10 * n
    }

    /** Enqueueing commands issued so far. */
    function Issued(): nat {
      if pc < Enq() then pc else Enq()
    }
  }

  datatype Action<!V> = HostStep | DeviceStep(lane: Lane) | NextBatch(n: nat, inp: Inputs<V>, abandonAt: Option<nat>)

  ghost predicate Enabled<V(!new)>(w: Worker<V>, a: Action<V>) {
    && w.Valid()
    && match a
       case HostStep => w.pc < |w.Prog()| && CanIssue(w.m, w.Prog()[w.pc])
       case DeviceStep(lane) => CanRun(w.m, lane)
       case NextBatch(n, inp, ab) =>
         w.pc == |w.Prog()| && n > 0 && inp.gemm == w.inp.gemm && (ab.Some? ==> ab.value <= 11 * n)
  }

  ghost function Apply<V(!new)>(w: Worker<V>, a: Action<V>): Worker<V>
    requires Enabled(w, a)
  {
    match a
    case HostStep => w.(m := Issue(w.m, w.Prog()[w.pc], w.inp), pc := w.pc + 1)
    case DeviceStep(lane) => w.(m := Run(w.m, lane, w.inp.gemm))
    case NextBatch(n, inp, ab) => Worker(w.m, n, ab, 0, inp, Base(|w.m.h.ops|, |w.m.c.ops|, |w.m.d.ops|))
  }

  predicate Init<V(!new)>(w: Worker<V>) {
    && w.m.h == w.m.c == w.m.d == Queue([], 0) && w.m.last == map[] && w.m.log == []
    && w.n == 0 && w.abandonAt == None && w.pc == 0 && w.base == Base(0, 0, 0)
  }

  ghost predicate IsRun<V(!new)>(ws: seq<Worker<V>>, acts: seq<Action<V>>) {
    && |ws| == |acts| + 1
    && Init(ws[0])
    && forall k :: 0 <= k < |acts| ==> Enabled(ws[k], acts[k]) && ws[k + 1] == Apply(ws[k], acts[k])
  }

  // ----- closed forms for the current batch

  /** Operations that the first `p` enqueueing commands put on each lane. */
  function CountH(p: nat): nat {
    3 * (p / 10) + (if p % 10 <= 1 then 0 else if p % 10 == 2 then 1 else if p % 10 == 3 then 2 else 3)
  }

  function CountC(p: nat): nat {
    3 * (p / 10) + (if p % 10 <= 4 then 0 else if p % 10 == 5 then 1 else if p % 10 == 6 then 2 else 3)
  }

  function CountD(p: nat): nat {
    3 * (p / 10) + (if p % 10 <= 7 then 0 else if p % 10 == 8 then 1 else 2)
  }

  /** The operation at position `q` of the batch's part of each lane, waits resolved. */
  function OpH(q: nat): Op {
    if q % 3 == 0 then Do(CopyA(q / 3)) else if q % 3 == 1 then Do(CopyB(q / 3)) else Mark(HDone(q / 3))
  }

  function OpC(base: Base, q: nat): Op {
    if q % 3 == 0 then Hold(Some(Ticket(H, base.h + q + 2)))
    else if q % 3 == 1 then Do(Kernel(q / 3)) else Mark(KDone(q / 3))
  }

  function OpD(base: Base, q: nat): Op {
    if q % 3 == 0 then Hold(Some(Ticket(C, base.c + q + 2)))
    else if q % 3 == 1 then Do(CopyC(q / 3)) else Mark(Done(q / 3))
  }

  function HOps(): nat -> Op { (q: nat) => OpH(q) }

  function COps(base: Base): nat -> Op { (q: nat) => OpC(base, q) }

  function DOps(base: Base): nat -> Op { (q: nat) => OpD(base, q) }

  /** After `start` operations, all of which have run, the lane holds `op(0)`, ..., `op(count - 1)`. */
  ghost predicate LaneIs(q: Queue, start: nat, count: nat, op: nat -> Op) {
    && |q.ops| == start + count && start <= q.ran <= |q.ops|
    && forall p: nat :: p < count ==> q.ops[start + p] == op(p)
  }

  lemma LaneAppend(q: Queue, start: nat, count: nat, op: nat -> Op)
    requires LaneIs(q, start, count, op)
    ensures LaneIs(Queue(q.ops + [op(count)], q.ran), start, count + 1, op)
  {
  }

  lemma LaneAt(q: Queue, start: nat, count: nat, op: nat -> Op, p: nat)
    requires LaneIs(q, start, count, op) && p < count
    ensures |q.ops| == start + count && q.ops[start + p] == op(p)
  {
  }

  lemma LaneBounds(q: Queue, start: nat, count: nat, op: nat -> Op)
    requires LaneIs(q, start, count, op)
    ensures |q.ops| == start + count && start <= q.ran <= |q.ops|
  {
  }

  /** The operation at the head of each lane that has one. */
  lemma LaneHeads<V(!new)>(w: Worker<V>)
    requires LanesInv(w)
    ensures w.base.h <= w.m.h.ran <= |w.m.h.ops| == w.base.h + CountH(w.Issued())
    ensures w.base.c <= w.m.c.ran <= |w.m.c.ops| == w.base.c + CountC(w.Issued())
    ensures w.base.d <= w.m.d.ran <= |w.m.d.ops| == w.base.d + CountD(w.Issued())
    ensures w.m.h.ran < |w.m.h.ops| ==> w.m.h.ops[w.m.h.ran] == OpH(w.m.h.ran - w.base.h)
    ensures w.m.c.ran < |w.m.c.ops| ==> w.m.c.ops[w.m.c.ran] == OpC(w.base, w.m.c.ran - w.base.c)
    ensures w.m.d.ran < |w.m.d.ops| ==> w.m.d.ops[w.m.d.ran] == OpD(w.base, w.m.d.ran - w.base.d)
  {
    hide CountH;
    hide CountC;
    hide CountD;
    var p := w.Issued();
    LaneBounds(w.m.h, w.base.h, CountH(p), HOps());
    LaneBounds(w.m.c, w.base.c, CountC(p), COps(w.base));
    LaneBounds(w.m.d, w.base.d, CountD(p), DOps(w.base));
    if w.m.h.ran < |w.m.h.ops| { LaneAt(w.m.h, w.base.h, CountH(p), HOps(), w.m.h.ran - w.base.h); }
    if w.m.c.ran < |w.m.c.ops| { LaneAt(w.m.c, w.base.c, CountC(p), COps(w.base), w.m.c.ran - w.base.c); }
    if w.m.d.ran < |w.m.d.ops| { LaneAt(w.m.d, w.base.d, CountD(p), DOps(w.base), w.m.d.ran - w.base.d); }
  }

  /** Each lane holds, after everything issued before this batch, exactly the operations of the
      commands issued for it. */
  ghost predicate LanesInv<V(!new)>(w: Worker<V>) {
    var p := w.Issued();
    && LaneIs(w.m.h, w.base.h, CountH(p), HOps())
    && LaneIs(w.m.c, w.base.c, CountC(p), COps(w.base))
    && LaneIs(w.m.d, w.base.d, CountD(p), DOps(w.base))
  }

  function HEvent(): nat -> Event { (i: nat) => HDone(i) }

  function KEvent(): nat -> Event { (i: nat) => KDone(i) }

  function DEvent(): nat -> Event { (i: nat) => Done(i) }

  /** The first `jobs` events of a kind were last recorded by this batch, at the end of their job's
      part of the lane. */
  ghost predicate RecordedHere(last: map<Event, Ticket>, lane: Lane, start: nat, jobs: nat, e: nat -> Event) {
    forall i: nat :: i < jobs ==> e(i) in last && last[e(i)] == Ticket(lane, start + 3 * i + 2)
  }

  lemma RecordNext(last: map<Event, Ticket>, lane: Lane, start: nat, jobs: nat, e: nat -> Event)
    requires RecordedHere(last, lane, start, jobs, e)
    requires forall i: nat :: i < jobs ==> e(i) != e(jobs)
    ensures RecordedHere(last[e(jobs) := Ticket(lane, start + 3 * jobs + 2)], lane, start, jobs + 1, e)
  {
  }

  lemma RecordOther(last: map<Event, Ticket>, lane: Lane, start: nat, jobs: nat, e: nat -> Event, other: Event,
                    t: Ticket)
    requires RecordedHere(last, lane, start, jobs, e)
    requires forall i: nat :: e(i) != other
    ensures RecordedHere(last[other := t], lane, start, jobs, e)
  {
  }

  lemma RecordAt(last: map<Event, Ticket>, lane: Lane, start: nat, jobs: nat, e: nat -> Event, i: nat)
    requires RecordedHere(last, lane, start, jobs, e) && i < jobs
    ensures e(i) in last && last[e(i)] == Ticket(lane, start + 3 * i + 2)
  {
  }

  /** Every event of the pool that this batch has recorded was last recorded by this batch. */
  ghost predicate EventsInv<V(!new)>(w: Worker<V>) {
    var p := w.Issued();
    && RecordedHere(w.m.last, H, w.base.h, CountH(p) / 3, HEvent())
    && RecordedHere(w.m.last, C, w.base.c, CountC(p) / 3, KEvent())
    && RecordedHere(w.m.last, D, w.base.d, CountD(p) / 3, DEvent())
  }

  /** Kernel lane behind copy-in lane, copy-out lane behind kernel lane, job by job. */
  ghost predicate OrderInv<V(!new)>(w: Worker<V>) {
    && (forall i: nat :: w.m.c.ran > w.base.c + 3 * i ==> w.m.h.ran >= w.base.h + 3 * i + 3)
    && (forall i: nat :: w.m.d.ran > w.base.d + 3 * i ==> w.m.c.ran >= w.base.c + 3 * i + 3)
  }

  /** What each buffer of job `i` holds, once it has been written. */
  ghost predicate JobMem<V(!new)>(w: Worker<V>, i: nat) {
    var product := w.inp.gemm(w.inp.a(i), w.inp.b(i));
    && (w.Issued() > 10 * i ==> w.m.mem.ha(i) == w.inp.a(i) && w.m.mem.hb(i) == w.inp.b(i))
    && (w.m.h.ran > w.base.h + 3 * i ==> w.m.mem.da(i) == w.inp.a(i))
    && (w.m.h.ran > w.base.h + 3 * i + 1 ==> w.m.mem.db(i) == w.inp.b(i))
    && (w.m.c.ran > w.base.c + 3 * i + 1 ==> w.m.mem.dc(i) == product)
    && (w.m.d.ran > w.base.d + 3 * i + 1 ==> w.m.mem.hc(i) == product)
  }

  ghost predicate MemInv<V(!new)>(w: Worker<V>) {
    forall i: nat :: JobMem(w, i)
  }

  /** Host progress: past `Sync(Done(i))` the copy-out of job `i` has run, and past the end of the
      program everything has. */
  ghost predicate SyncInv<V(!new)>(w: Worker<V>) {
    && w.Valid() && w.pc <= |w.Prog()|
    && (w.abandonAt.None? ==> forall i: nat :: i < w.n && w.pc > 10 * w.n + i ==> w.m.d.ran >= w.base.d + 3 * i + 3)
    && (w.pc == |w.Prog()| ==> Idle(w.m))
  }

  ghost predicate Inv<V(!new)>(w: Worker<V>) {
    SyncInv(w) && LanesInv(w) && EventsInv(w) && OrderInv(w) && MemInv(w)
  }

  // ----- the program by index

  lemma ProgAt<V(!new)>(w: Worker<V>, p: nat)
    requires w.Valid() && p < |w.Prog()|
    ensures w.Enq() <= |w.Prog()|
    ensures p < w.Enq() ==> w.Prog()[p] == JobCmd(p / 10, p % 10)
    ensures p >= w.Enq() ==> w.Prog()[p].Sync? || w.Prog()[p].DeviceSync?
    ensures w.abandonAt.None? && p >= w.Enq() ==> w.Prog()[p] == Sync(Done(p - 10 * w.n))
    ensures w.abandonAt.Some? && p == |w.Prog()| - 1 ==> w.Prog()[p] == DeviceSync
  {
    hide IssueOrder;
    assert |IssueOrder(w.n)| == 10 * w.n;
    if w.abandonAt.Some? && p < w.abandonAt.value {
      assert w.Prog()[p] == FullProgram(w.n)[p];
    }
    if p < w.Enq() {
      IssueOrderAt(w.n, p / 10, p % 10);
    }
  }

  lemma CountStep(p: nat)
    ensures CountH(p + 1) == CountH(p) + (if p % 10 == 1 || p % 10 == 2 || p % 10 == 3 then 1 else 0)
    ensures CountC(p + 1) == CountC(p) + (if p % 10 == 4 || p % 10 == 5 || p % 10 == 6 then 1 else 0)
    ensures CountD(p + 1) == CountD(p) + (if p % 10 == 7 || p % 10 == 8 || p % 10 == 9 then 1 else 0)
  {
    CountStepH(p);
    CountStepC(p);
    CountStepD(p);
    hide CountH;
    hide CountC;
    hide CountD;
  }

  lemma CountStepH(p: nat)
    ensures CountH(p + 1) == CountH(p) + (if p % 10 == 1 || p % 10 == 2 || p % 10 == 3 then 1 else 0)
  {
  }

  lemma CountStepC(p: nat)
    ensures CountC(p + 1) == CountC(p) + (if p % 10 == 4 || p % 10 == 5 || p % 10 == 6 then 1 else 0)
  {
  }

  lemma CountStepD(p: nat)
    ensures CountD(p + 1) == CountD(p) + (if p % 10 == 7 || p % 10 == 8 || p % 10 == 9 then 1 else 0)
  {
  }

  // ----- host steps

  lemma HostLanes<V(!new)>(w: Worker<V>, w': Worker<V>)
    requires Enabled(w, HostStep) && w' == Apply(w, HostStep) && LanesInv(w) && EventsInv(w)
    ensures LanesInv(w') && EventsInv(w')
  {
    ProgAt(w, w.pc);
    if w.pc < w.Enq() {
      CountStep(w.pc);
      var i, c := w.pc / 10, w.pc % 10;
      assert w.pc == 10 * i + c;
      JobCmdLanes(w, w', i, c);
    }
  }

  lemma JobCmdLanes<V(!new)>(w: Worker<V>, w': Worker<V>, i: nat, c: nat)
    requires LanesInv(w) && EventsInv(w) && c < 10 && w.pc == 10 * i + c < w.Enq()
    requires w' == w.(m := Issue(w.m, JobCmd(i, c), w.inp), pc := w.pc + 1)
    ensures LanesInv(w') && EventsInv(w')
  {
    if c <= 3 {
      CopyInCmd(w, w', i, c);
    } else if c <= 6 {
      KernelCmd(w, w', i, c);
    } else {
      CopyOutCmd(w, w', i, c);
    }
  }

  /** The counts before and after command `c` of job `i`. */
  lemma LaneCounts(i: nat, c: nat)
    requires c < 10
    ensures CountH(10 * i + c) == 3 * i + (if c <= 1 then 0 else if c == 2 then 1 else if c == 3 then 2 else 3)
    ensures CountC(10 * i + c) == 3 * i + (if c <= 4 then 0 else if c == 5 then 1 else if c == 6 then 2 else 3)
    ensures CountD(10 * i + c) == 3 * i + (if c <= 7 then 0 else if c == 8 then 1 else 2)
    ensures CountH(10 * i + c + 1) == 3 * i + (if c < 1 then 0 else if c == 1 then 1 else if c == 2 then 2 else 3)
    ensures CountC(10 * i + c + 1) == 3 * i + (if c < 4 then 0 else if c == 4 then 1 else if c == 5 then 2 else 3)
    ensures CountD(10 * i + c + 1) == 3 * i + (if c < 7 then 0 else if c == 7 then 1 else if c == 8 then 2 else 3)
  {
    assert (10 * i + c) / 10 == i && (10 * i + c) % 10 == c;
    CountStep(10 * i + c);
  }

  /** The same, with the number of whole jobs on each lane. */
  lemma CountsAt(i: nat, c: nat)
    requires c < 10
    ensures CountH(10 * i + c) == 3 * i + (if c <= 1 then 0 else if c == 2 then 1 else if c == 3 then 2 else 3)
    ensures CountC(10 * i + c) == 3 * i + (if c <= 4 then 0 else if c == 5 then 1 else if c == 6 then 2 else 3)
    ensures CountD(10 * i + c) == 3 * i + (if c <= 7 then 0 else if c == 8 then 1 else 2)
    ensures CountH(10 * i + c + 1) == 3 * i + (if c < 1 then 0 else if c == 1 then 1 else if c == 2 then 2 else 3)
    ensures CountC(10 * i + c + 1) == 3 * i + (if c < 4 then 0 else if c == 4 then 1 else if c == 5 then 2 else 3)
    ensures CountD(10 * i + c + 1) == 3 * i + (if c < 7 then 0 else if c == 7 then 1 else if c == 8 then 2 else 3)
    ensures CountH(10 * i + c) / 3 == (if c <= 3 then i else i + 1)
            && CountH(10 * i + c + 1) / 3 == (if c < 3 then i else i + 1)
    ensures CountC(10 * i + c) / 3 == (if c <= 6 then i else i + 1)
            && CountC(10 * i + c + 1) / 3 == (if c < 6 then i else i + 1)
    ensures CountD(10 * i + c) / 3 == i && CountD(10 * i + c + 1) / 3 == (if c < 9 then i else i + 1)
  {
    LaneCounts(i, c);
    hide CountH;
    hide CountC;
    hide CountD;
  }

  /** What command `c` of job `i` does to the lanes and the event pool. */
  lemma CopyInEffect<V(!new)>(m: Machine<V>, inp: Inputs<V>, i: nat, c: nat)
    requires c <= 3
    ensures
      var m' := Issue(m, JobCmd(i, c), inp);
      && m'.h == (if c == 0 then m.h else Queue(m.h.ops + [OpH(3 * i + c - 1)], m.h.ran)) && m'.c == m.c && m'.d == m.d
      && m'.last == (if c == 3 then m.last[HDone(i) := Ticket(H, |m.h.ops|)] else m.last)
  {
  }

  lemma KernelEffect<V(!new)>(m: Machine<V>, inp: Inputs<V>, i: nat, c: nat, base: Base)
    requires 4 <= c <= 6
    requires c == 4 ==> Bound(m, HDone(i)) == Some(Ticket(H, base.h + 3 * i + 2))
    ensures
      var m' := Issue(m, JobCmd(i, c), inp);
      && m'.c == Queue(m.c.ops + [OpC(base, 3 * i + c - 4)], m.c.ran) && m'.h == m.h && m'.d == m.d
      && m'.last == (if c == 6 then m.last[KDone(i) := Ticket(C, |m.c.ops|)] else m.last)
  {
  }

  lemma CopyOutEffect<V(!new)>(m: Machine<V>, inp: Inputs<V>, i: nat, c: nat, base: Base)
    requires 7 <= c <= 9
    requires c == 7 ==> Bound(m, KDone(i)) == Some(Ticket(C, base.c + 3 * i + 2))
    ensures
      var m' := Issue(m, JobCmd(i, c), inp);
      && m'.d == Queue(m.d.ops + [OpD(base, 3 * i + c - 7)], m.d.ran) && m'.h == m.h && m'.c == m.c
      && m'.last == (if c == 9 then m.last[Done(i) := Ticket(D, |m.d.ops|)] else m.last)
  {
  }

  lemma CopyInCmdLanes<V(!new)>(w: Worker<V>, w': Worker<V>, i: nat, c: nat)
    requires LanesInv(w) && EventsInv(w) && c <= 3 && w.pc == 10 * i + c < w.Enq()
    requires w' == w.(m := Issue(w.m, JobCmd(i, c), w.inp), pc := w.pc + 1)
    ensures LanesInv(w')
  {
    hide LaneIs;
    hide EventsInv;
    LaneCounts(i, c);
    hide CountH;
    hide CountC;
    hide CountD;
    CopyInEffect(w.m, w.inp, i, c);
    hide Issue;
    hide JobCmd;
    if c > 0 {
      LaneAppend(w.m.h, w.base.h, CountH(w.pc), HOps());
    }
    hide OpH;
  }

  lemma CopyInCmdEvents<V(!new)>(w: Worker<V>, w': Worker<V>, i: nat, c: nat)
    requires LanesInv(w) && EventsInv(w) && c <= 3 && w.pc == 10 * i + c < w.Enq()
    requires w' == w.(m := Issue(w.m, JobCmd(i, c), w.inp), pc := w.pc + 1)
    ensures EventsInv(w')
  {
    hide LaneIs;
    hide RecordedHere;
    CountsAt(i, c);
    hide CountH;
    hide CountC;
    hide CountD;
    CopyInEffect(w.m, w.inp, i, c);
    hide Issue;
    hide JobCmd;
    LaneBounds(w.m.h, w.base.h, CountH(w.pc), HOps());
    if c == 3 {
      var t := Ticket(H, w.base.h + 3 * i + 2);
      RecordNext(w.m.last, H, w.base.h, i, HEvent());
      RecordOther(w.m.last, C, w.base.c, i, KEvent(), HDone(i), t);
      RecordOther(w.m.last, D, w.base.d, i, DEvent(), HDone(i), t);
    }
    hide OpH;
  }

  lemma CopyInCmd<V(!new)>(w: Worker<V>, w': Worker<V>, i: nat, c: nat)
    requires LanesInv(w) && EventsInv(w) && c <= 3 && w.pc == 10 * i + c < w.Enq()
    requires w' == w.(m := Issue(w.m, JobCmd(i, c), w.inp), pc := w.pc + 1)
    ensures LanesInv(w') && EventsInv(w')
  {
    CopyInCmdLanes(w, w', i, c);
    CopyInCmdEvents(w, w', i, c);
    hide *;
  }

  lemma KernelCmdLanes<V(!new)>(w: Worker<V>, w': Worker<V>, i: nat, c: nat)
    requires LanesInv(w) && EventsInv(w) && 4 <= c <= 6 && w.pc == 10 * i + c < w.Enq()
    requires w' == w.(m := Issue(w.m, JobCmd(i, c), w.inp), pc := w.pc + 1)
    ensures LanesInv(w')
  {
    hide LaneIs;
    hide RecordedHere;
    LaneCounts(i, c);
    hide CountH;
    hide CountC;
    hide CountD;
    if c == 4 {
      CountsAt(i, c);
      RecordAt(w.m.last, H, w.base.h, i + 1, HEvent(), i);
    }
    hide EventsInv;
    KernelEffect(w.m, w.inp, i, c, w.base);
    hide Issue;
    hide JobCmd;
    LaneAppend(w.m.c, w.base.c, CountC(w.pc), COps(w.base));
    hide OpC;
  }

  lemma KernelCmdEvents<V(!new)>(w: Worker<V>, w': Worker<V>, i: nat, c: nat)
    requires LanesInv(w) && EventsInv(w) && 4 <= c <= 6 && w.pc == 10 * i + c < w.Enq()
    requires w' == w.(m := Issue(w.m, JobCmd(i, c), w.inp), pc := w.pc + 1)
    ensures EventsInv(w')
  {
    hide LaneIs;
    hide RecordedHere;
    CountsAt(i, c);
    hide CountH;
    hide CountC;
    hide CountD;
    if c == 4 {
      RecordAt(w.m.last, H, w.base.h, i + 1, HEvent(), i);
    }
    KernelEffect(w.m, w.inp, i, c, w.base);
    hide Issue;
    hide JobCmd;
    LaneBounds(w.m.c, w.base.c, CountC(w.pc), COps(w.base));
    if c == 6 {
      var t := Ticket(C, w.base.c + 3 * i + 2);
      RecordNext(w.m.last, C, w.base.c, i, KEvent());
      RecordOther(w.m.last, H, w.base.h, i + 1, HEvent(), KDone(i), t);
      RecordOther(w.m.last, D, w.base.d, i, DEvent(), KDone(i), t);
    }
    hide OpC;
  }

  lemma KernelCmd<V(!new)>(w: Worker<V>, w': Worker<V>, i: nat, c: nat)
    requires LanesInv(w) && EventsInv(w) && 4 <= c <= 6 && w.pc == 10 * i + c < w.Enq()
    requires w' == w.(m := Issue(w.m, JobCmd(i, c), w.inp), pc := w.pc + 1)
    ensures LanesInv(w') && EventsInv(w')
  {
    KernelCmdLanes(w, w', i, c);
    KernelCmdEvents(w, w', i, c);
    hide *;
  }

  lemma CopyOutCmdLanes<V(!new)>(w: Worker<V>, w': Worker<V>, i: nat, c: nat)
    requires LanesInv(w) && EventsInv(w) && 7 <= c <= 9 && w.pc == 10 * i + c < w.Enq()
    requires w' == w.(m := Issue(w.m, JobCmd(i, c), w.inp), pc := w.pc + 1)
    ensures LanesInv(w')
  {
    hide LaneIs;
    hide RecordedHere;
    LaneCounts(i, c);
    hide CountH;
    hide CountC;
    hide CountD;
    if c == 7 {
      CountsAt(i, c);
      RecordAt(w.m.last, C, w.base.c, i + 1, KEvent(), i);
    }
    hide EventsInv;
    CopyOutEffect(w.m, w.inp, i, c, w.base);
    hide Issue;
    hide JobCmd;
    LaneAppend(w.m.d, w.base.d, CountD(w.pc), DOps(w.base));
    hide OpD;
  }

  lemma CopyOutCmdEvents<V(!new)>(w: Worker<V>, w': Worker<V>, i: nat, c: nat)
    requires LanesInv(w) && EventsInv(w) && 7 <= c <= 9 && w.pc == 10 * i + c < w.Enq()
    requires w' == w.(m := Issue(w.m, JobCmd(i, c), w.inp), pc := w.pc + 1)
    ensures EventsInv(w')
  {
    hide LaneIs;
    hide RecordedHere;
    CountsAt(i, c);
    hide CountH;
    hide CountC;
    hide CountD;
    if c == 7 {
      RecordAt(w.m.last, C, w.base.c, i + 1, KEvent(), i);
    }
    CopyOutEffect(w.m, w.inp, i, c, w.base);
    hide Issue;
    hide JobCmd;
    LaneBounds(w.m.d, w.base.d, CountD(w.pc), DOps(w.base));
    if c == 9 {
      var t := Ticket(D, w.base.d + 3 * i + 2);
      RecordNext(w.m.last, D, w.base.d, i, DEvent());
      RecordOther(w.m.last, H, w.base.h, i + 1, HEvent(), Done(i), t);
      RecordOther(w.m.last, C, w.base.c, i + 1, KEvent(), Done(i), t);
    }
    hide OpD;
  }

  lemma CopyOutCmd<V(!new)>(w: Worker<V>, w': Worker<V>, i: nat, c: nat)
    requires LanesInv(w) && EventsInv(w) && 7 <= c <= 9 && w.pc == 10 * i + c < w.Enq()
    requires w' == w.(m := Issue(w.m, JobCmd(i, c), w.inp), pc := w.pc + 1)
    ensures LanesInv(w') && EventsInv(w')
  {
    CopyOutCmdLanes(w, w', i, c);
    CopyOutCmdEvents(w, w', i, c);
    hide *;
  }

  // ----- device steps

  lemma DeviceLanes<V(!new)>(w: Worker<V>, lane: Lane, w': Worker<V>)
    requires Enabled(w, DeviceStep(lane)) && w' == Apply(w, DeviceStep(lane)) && LanesInv(w) && EventsInv(w)
    ensures LanesInv(w') && EventsInv(w')
  {
    hide CountH;
    hide CountC;
    hide CountD;
    hide RecordedHere;
    hide OpH;
    hide OpC;
    hide OpD;
    assert forall q: Queue, start: nat, count: nat, op: nat -> Op ::
        LaneIs(q, start, count, op) && q.ran < |q.ops| ==> LaneIs(Queue(q.ops, q.ran + 1), start, count, op);
    hide LaneIs;
  }

  /** A wait at the head of the kernel lane only lets go once the job's copies have run. */
  lemma KernelGate<V(!new)>(w: Worker<V>, i: nat)
    requires LanesInv(w) && CanRun(w.m, C) && w.m.c.ran == w.base.c + 3 * i
    ensures w.m.h.ran >= w.base.h + 3 * i + 3
  {
    LaneHeads(w);
    hide LanesInv;
    hide CountH;
    hide CountC;
    hide CountD;
  }

  lemma CopyOutGate<V(!new)>(w: Worker<V>, i: nat)
    requires LanesInv(w) && CanRun(w.m, D) && w.m.d.ran == w.base.d + 3 * i
    ensures w.m.c.ran >= w.base.c + 3 * i + 3
  {
    LaneHeads(w);
    hide LanesInv;
    hide CountH;
    hide CountC;
    hide CountD;
  }

  lemma DeviceOrder<V(!new)>(w: Worker<V>, lane: Lane, w': Worker<V>)
    requires Enabled(w, DeviceStep(lane)) && w' == Apply(w, DeviceStep(lane)) && LanesInv(w) && OrderInv(w)
    ensures OrderInv(w')
  {
    hide LanesInv;
    forall i: nat | w'.m.c.ran > w.base.c + 3 * i ensures w'.m.h.ran >= w.base.h + 3 * i + 3 {
      if w.m.c.ran == w.base.c + 3 * i {
        KernelGate(w, i);
      }
    }
    forall i: nat | w'.m.d.ran > w.base.d + 3 * i ensures w'.m.c.ran >= w.base.c + 3 * i + 3 {
      if w.m.d.ran == w.base.d + 3 * i {
        CopyOutGate(w, i);
      }
    }
  }

  /** The work at the head of each lane, when it is work. */
  lemma HeadWork<V(!new)>(w: Worker<V>, lane: Lane)
    requires LanesInv(w) && CanRun(w.m, lane)
    ensures
      var q := w.m.Q(lane);
      q.ops[q.ran].Do? ==>
        match q.ops[q.ran].work
        case CopyA(i) => lane == H && w.m.h.ran == w.base.h + 3 * i && w.Issued() > 10 * i
        case CopyB(i) => lane == H && w.m.h.ran == w.base.h + 3 * i + 1 && w.Issued() > 10 * i
        case Kernel(i) => lane == C && w.m.c.ran == w.base.c + 3 * i + 1
        case CopyC(i) => lane == D && w.m.d.ran == w.base.d + 3 * i + 1
  {
    LaneHeads(w);
    hide LanesInv;
    hide CountC;
    hide CountD;
  }

  lemma DeviceMem<V(!new)>(w: Worker<V>, lane: Lane, w': Worker<V>)
    requires Enabled(w, DeviceStep(lane)) && w' == Apply(w, DeviceStep(lane))
    requires LanesInv(w) && OrderInv(w) && MemInv(w)
    ensures MemInv(w')
  {
    forall i: nat ensures JobMem(w', i) {
      DeviceJobMem(w, lane, w', i);
    }
  }

  lemma DeviceJobMem<V(!new)>(w: Worker<V>, lane: Lane, w': Worker<V>, i: nat)
    requires Enabled(w, DeviceStep(lane)) && w' == Apply(w, DeviceStep(lane))
    requires LanesInv(w) && OrderInv(w) && JobMem(w, i)
    ensures JobMem(w', i)
  {
    HeadWork(w, lane);
    HeadIsWork(w, lane, i);
    assert w.m.c.ran > w.base.c + 3 * i ==> w.m.h.ran >= w.base.h + 3 * i + 3;
    assert w.m.d.ran > w.base.d + 3 * i ==> w.m.c.ran >= w.base.c + 3 * i + 3;
    hide LanesInv;
    hide OrderInv;
    var q := w.m.Q(lane);
    if !q.ops[q.ran].Do? {
      assert w'.m.mem == w.m.mem;
    } else {
      match q.ops[q.ran].work
      case CopyA(j) =>
        assert w'.m.mem == w.m.mem.(da := Set(w.m.mem.da, j, w.m.mem.ha(j)));
      case CopyB(j) =>
        assert w'.m.mem == w.m.mem.(db := Set(w.m.mem.db, j, w.m.mem.hb(j)));
      case Kernel(j) =>
        assert w'.m.mem == w.m.mem.(dc := Set(w.m.mem.dc, j, w.inp.gemm(w.m.mem.da(j), w.m.mem.db(j))));
      case CopyC(j) =>
        assert w'.m.mem == w.m.mem.(hc := Set(w.m.mem.hc, j, w.m.mem.dc(j)));
    }
  }

  /** Conversely, the positions that hold work. */
  lemma HeadIsWork<V(!new)>(w: Worker<V>, lane: Lane, i: nat)
    requires LanesInv(w) && CanRun(w.m, lane)
    ensures
      var q := w.m.Q(lane);
      && (lane == H && q.ran == w.base.h + 3 * i ==> q.ops[q.ran] == Do(CopyA(i)))
      && (lane == H && q.ran == w.base.h + 3 * i + 1 ==> q.ops[q.ran] == Do(CopyB(i)))
      && (lane == C && q.ran == w.base.c + 3 * i + 1 ==> q.ops[q.ran] == Do(Kernel(i)))
      && (lane == D && q.ran == w.base.d + 3 * i + 1 ==> q.ops[q.ran] == Do(CopyC(i)))
  {
    LaneHeads(w);
    hide LanesInv;
    hide CountH;
    hide CountC;
    hide CountD;
  }

  // ----- the remaining preservation steps

  lemma HostMem<V(!new)>(w: Worker<V>, w': Worker<V>)
    requires Enabled(w, HostStep) && w' == Apply(w, HostStep) && MemInv(w)
    ensures MemInv(w') && w'.m.h.ran == w.m.h.ran && w'.m.c.ran == w.m.c.ran && w'.m.d.ran == w.m.d.ran
  {
    ProgAt(w, w.pc);
    hide FullProgram;
    hide AbandonedProgram;
    forall i: nat ensures JobMem(w', i) {
      assert JobMem(w, i);
      assert w.pc < w.Enq() && w.pc % 10 != 0 && w.pc + 1 > 10 * i ==> w.pc > 10 * i;
    }
  }

  /** Once the last copy-out of the batch has run, the device is idle. */
  lemma DrainedIsIdle<V(!new)>(w: Worker<V>)
    requires LanesInv(w) && OrderInv(w) && w.n > 0 && w.abandonAt.None? && w.pc >= 10 * w.n
    requires w.m.d.ran >= w.base.d + 3 * (w.n - 1) + 3
    ensures Idle(w.m)
  {
    CountsAt(w.n, 0);
    LaneHeads(w);
    hide LanesInv;
    assert w.m.c.ran >= w.base.c + 3 * (w.n - 1) + 3 by {
      assert w.m.d.ran > w.base.d + 3 * (w.n - 1);
    }
    assert w.m.h.ran >= w.base.h + 3 * (w.n - 1) + 3 by {
      assert w.m.c.ran > w.base.c + 3 * (w.n - 1);
    }
  }

  lemma HostSyncs<V(!new)>(w: Worker<V>, w': Worker<V>)
    requires Enabled(w, HostStep) && w' == Apply(w, HostStep) && Inv(w)
    ensures SyncInv(w')
  {
    ProgAt(w, w.pc);
    HostLanes(w, w');
    HostMem(w, w');
    assert w'.Valid() && w'.Prog() == w.Prog();
    if w.abandonAt.None? {
      assert |w.Prog()| == 11 * w.n;
      if w.pc >= 10 * w.n {
        PassedSync(w, w.pc - 10 * w.n);
        hide LanesInv;
        hide EventsInv;
        hide MemInv;
        hide FullProgram;
        if w'.pc == 11 * w.n {
          DrainedIsIdle(w');
        }
      }
    }
  }

  lemma PassedSync<V(!new)>(w: Worker<V>, i: nat)
    requires EventsInv(w) && w.abandonAt.None? && i < w.n && w.pc >= 10 * w.n && CanIssue(w.m, Sync(Done(i)))
    ensures w.m.d.ran >= w.base.d + 3 * i + 3
  {
    CountsAt(w.n, 0);
    RecordAt(w.m.last, D, w.base.d, w.n, DEvent(), i);
  }

  lemma DeviceSyncs<V(!new)>(w: Worker<V>, lane: Lane, w': Worker<V>)
    requires Enabled(w, DeviceStep(lane)) && w' == Apply(w, DeviceStep(lane)) && SyncInv(w)
    ensures SyncInv(w')
  {
    assert w'.Prog() == w.Prog();
  }

  lemma NextBatchInv<V(!new)>(w: Worker<V>, n: nat, inp: Inputs<V>, ab: Option<nat>, w': Worker<V>)
    requires Enabled(w, NextBatch(n, inp, ab)) && w' == Apply(w, NextBatch(n, inp, ab)) && SyncInv(w)
    ensures Inv(w')
  {
    assert Idle(w'.m);
    assert |w'.Prog()| > 0;
    CountsAt(0, 0);
  }

  lemma StepInv<V(!new)>(w: Worker<V>, a: Action<V>, w': Worker<V>)
    requires Enabled(w, a) && w' == Apply(w, a) && Inv(w)
    ensures Inv(w')
  {
    hide LanesInv;
    hide EventsInv;
    hide SyncInv;
    hide MemInv;
    match a
    case HostStep =>
      HostSyncs(w, w');
      HostLanes(w, w');
      HostMem(w, w');
    case DeviceStep(lane) =>
      DeviceLanes(w, lane, w');
      DeviceOrder(w, lane, w');
      DeviceMem(w, lane, w');
      DeviceSyncs(w, lane, w');
    case NextBatch(n, inp, ab) => NextBatchInv(w, n, inp, ab, w');
  }

  lemma InitInv<V(!new)>(w: Worker<V>)
    requires Init(w)
    ensures Inv(w)
  {
    assert w.Prog() == [];
  }

  lemma {:induction false} RunInv<V(!new)>(ws: seq<Worker<V>>, acts: seq<Action<V>>)
    requires IsRun(ws, acts)
    ensures Inv(ws[|acts|])
    decreases |acts|
  {
    hide Inv;
    if acts == [] {
      InitInv(ws[0]);
    } else {
      var k := |acts| - 1;
      assert IsRun(ws[..|acts|], acts[..k]) by {
        forall x | 0 <= x < k
          ensures Enabled(ws[..|acts|][x], acts[..k][x])
                  && ws[..|acts|][x + 1] == Apply(ws[..|acts|][x], acts[..k][x])
        {
          assert Enabled(ws[x], acts[x]) && ws[x + 1] == Apply(ws[x], acts[x]);
        }
      }
      RunInv(ws[..|acts|], acts[..k]);
      assert Enabled(ws[k], acts[k]) && ws[k + 1] == Apply(ws[k], acts[k]);
      hide Enabled;
      hide Apply;
      StepInv(ws[k], acts[k], ws[k + 1]);
    }
  }
}
