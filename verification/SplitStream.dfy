/** The control experiment of the overlap benchmark: one copy stream and one compute stream, with
    two events that every job reuses. Its dependencies leave no choice of schedule. */
module SplitStream {
  import opened Streams
  import opened Wrappers
  import Pipeline

  // ----- the host program

  function SplitCmd(i: nat, c: nat): Cmd
    requires c < 8
  {
    if c == 0 then Launch(H, CopyA(i))
    else if c == 1 then Launch(H, CopyB(i))
    else if c == 2 then RecordEvent(H, EvH2D)
    else if c == 3 then WaitEvent(C, EvH2D)
    else if c == 4 then Launch(C, Kernel(i))
    else if c == 5 then RecordEvent(C, EvKern)
    else if c == 6 then WaitEvent(H, EvKern)
    else Launch(H, CopyC(i))
  }

  function SplitOrder(n: nat): (cmds: seq<Cmd>)
    ensures |cmds| == 8 * n
  {
    if n == 0 then []
    else
      var i := n - 1;
      SplitOrder(i) + [SplitCmd(i, 0), SplitCmd(i, 1), SplitCmd(i, 2), SplitCmd(i, 3),
                       SplitCmd(i, 4), SplitCmd(i, 5), SplitCmd(i, 6), SplitCmd(i, 7)]
  }

  method EnqueueSplit(n: nat) returns (cmds: seq<Cmd>)
    ensures cmds == SplitOrder(n)
  {
    cmds := [];
    for i := 0 to n
      invariant cmds == SplitOrder(i)
    {
      var job := [Launch(H, CopyA(i))];
      job := job + [Launch(H, CopyB(i))];
      job := job + [RecordEvent(H, EvH2D)];
      job := job + [WaitEvent(C, EvH2D)];
      job := job + [Launch(C, Kernel(i))];
      job := job + [RecordEvent(C, EvKern)];
      job := job + [WaitEvent(H, EvKern)];
      job := job + [Launch(H, CopyC(i))];
      cmds := cmds + job;
    }
  }

  lemma {:induction false} SplitOrderAt(n: nat, i: nat, c: nat)
    requires i < n && c < 8
    ensures SplitOrder(n)[8 * i + c] == SplitCmd(i, c)
  {
    if i < n - 1 {
      SplitOrderAt(n - 1, i, c);
    }
  }

  // ----- runs

  datatype Bench<!V> = Bench(m: Machine<V>, n: nat, pc: nat, inp: Inputs<V>)

  /** `None` is a step of the host. */
  ghost predicate Enabled<V(!new)>(b: Bench<V>, a: Option<Lane>) {
    match a
    case None => b.pc < 8 * b.n
    case Some(lane) => CanRun(b.m, lane)
  }

  ghost function Apply<V(!new)>(b: Bench<V>, a: Option<Lane>): Bench<V>
    requires Enabled(b, a)
  {
    match a
    case None => b.(m := Issue(b.m, SplitOrder(b.n)[b.pc], b.inp), pc := b.pc + 1)
    case Some(lane) => b.(m := Run(b.m, lane, b.inp.gemm))
  }

  /** Pinned host inputs are filled before the timed sequence starts. */
  ghost predicate Init<V(!new)>(b: Bench<V>) {
    && b.m.h == b.m.c == b.m.d == Queue([], 0) && b.m.last == map[] && b.m.log == [] && b.pc == 0
    && forall i: nat :: b.m.mem.ha(i) == b.inp.a(i) && b.m.mem.hb(i) == b.inp.b(i)
  }

  ghost predicate IsRun<V(!new)>(bs: seq<Bench<V>>, acts: seq<Option<Lane>>) {
    && |bs| == |acts| + 1
    && Init(bs[0])
    && forall k :: 0 <= k < |acts| ==> Enabled(bs[k], acts[k]) && bs[k + 1] == Apply(bs[k], acts[k])
  }

  // ----- closed forms

  function CountH(p: nat): nat {
    5 * (p / 8) + (if p % 8 <= 3 then p % 8 else if p % 8 <= 6 then 3 else 4)
  }

  function CountC(p: nat): nat {
    3 * (p / 8) + (if p % 8 <= 3 then 0 else if p % 8 == 4 then 1 else if p % 8 == 5 then 2 else 3)
  }

  function OpH(q: nat): Op {
    if q % 5 == 0 then Do(CopyA(q / 5)) else if q % 5 == 1 then Do(CopyB(q / 5)) else if q % 5 == 2 then Mark(EvH2D)
    else if q % 5 == 3 then Hold(Some(Ticket(C, 3 * (q / 5) + 2))) else Do(CopyC(q / 5))
  }

  function OpC(q: nat): Op {
    if q % 3 == 0 then Hold(Some(Ticket(H, 5 * (q / 3) + 2)))
    else if q % 3 == 1 then Do(Kernel(q / 3)) else Mark(EvKern)
  }

  function HOps(): nat -> Op { (q: nat) => OpH(q) }

  function COps(): nat -> Op { (q: nat) => OpC(q) }

  /** The only possible schedule: inputs, kernel, result, job after job. */
  function Serial(k: nat): Work {
    if k % 4 == 0 then CopyA(k / 4) else if k % 4 == 1 then CopyB(k / 4)
    else if k % 4 == 2 then Kernel(k / 4) else CopyC(k / 4)
  }

  ghost predicate LanesInv<V(!new)>(b: Bench<V>) {
    && Pipeline.LaneIs(b.m.h, 0, CountH(b.pc), HOps())
    && Pipeline.LaneIs(b.m.c, 0, CountC(b.pc), COps())
    && b.m.d == Queue([], 0)
  }

  ghost predicate EventsInv<V(!new)>(b: Bench<V>) {
    && (b.pc % 8 >= 3 ==> Bound(b.m, EvH2D) == Some(Ticket(H, 5 * (b.pc / 8) + 2)))
    && (b.pc % 8 >= 6 ==> Bound(b.m, EvKern) == Some(Ticket(C, 3 * (b.pc / 8) + 2)))
  }

  /** The two lanes hand over to each other twice per job. */
  ghost predicate OrderInv<V(!new)>(b: Bench<V>) {
    && (forall i: nat :: b.m.c.ran > 3 * i ==> b.m.h.ran >= 5 * i + 3)
    && (forall i: nat :: b.m.h.ran > 5 * i + 3 ==> b.m.c.ran >= 3 * i + 3)
  }

  /** Work among the first `r` operations of each lane. */
  function WorkH(r: nat): nat {
    3 * (r / 5) + (if r % 5 <= 1 then r % 5 else 2)
  }

  function WorkC(r: nat): nat {
    r / 3 + (if r % 3 == 2 then 1 else 0)
  }

  ghost predicate LogInv<V(!new)>(b: Bench<V>) {
    && |b.m.log| == WorkH(b.m.h.ran) + WorkC(b.m.c.ran)
    && forall k: nat :: k < |b.m.log| ==> b.m.log[k] == Serial(k)
  }

  ghost predicate JobMem<V(!new)>(b: Bench<V>, i: nat) {
    var product := b.inp.gemm(b.inp.a(i), b.inp.b(i));
    && b.m.mem.ha(i) == b.inp.a(i) && b.m.mem.hb(i) == b.inp.b(i)
    && (|b.m.log| > 4 * i ==> b.m.mem.da(i) == b.inp.a(i))
    && (|b.m.log| > 4 * i + 1 ==> b.m.mem.db(i) == b.inp.b(i))
    && (|b.m.log| > 4 * i + 2 ==> b.m.mem.dc(i) == product)
    && (|b.m.log| > 4 * i + 3 ==> b.m.mem.hc(i) == product)
  }

  ghost predicate MemInv<V(!new)>(b: Bench<V>) {
    forall i: nat :: JobMem(b, i)
  }

  ghost predicate Inv<V(!new)>(b: Bench<V>) {
    b.pc <= 8 * b.n && LanesInv(b) && EventsInv(b) && OrderInv(b) && LogInv(b) && MemInv(b)
  }

  // ----- host steps

  lemma CountsAt(i: nat, c: nat)
    requires c < 8
    ensures (8 * i + c) / 8 == i && (8 * i + c) % 8 == c
    ensures CountH(8 * i + c) == 5 * i + (if c <= 3 then c else if c <= 6 then 3 else 4)
    ensures CountC(8 * i + c) == 3 * i + (if c <= 3 then 0 else if c == 4 then 1 else if c == 5 then 2 else 3)
    ensures CountH(8 * i + c + 1) == 5 * i + (if c < 3 then c + 1 else if c < 6 then 3 else if c == 6 then 4 else 5)
    ensures CountC(8 * i + c + 1) == 3 * i + (if c < 3 then 0 else if c == 3 then 1 else if c == 4 then 2 else 3)
    ensures c < 7 ==> (8 * i + c + 1) / 8 == i && (8 * i + c + 1) % 8 == c + 1
    ensures c == 7 ==> (8 * i + c + 1) / 8 == i + 1 && (8 * i + c + 1) % 8 == 0
  {
  }

  lemma CmdEffect<V(!new)>(m: Machine<V>, inp: Inputs<V>, i: nat, c: nat)
    requires c < 8
    requires c == 3 ==> Bound(m, EvH2D) == Some(Ticket(H, 5 * i + 2))
    requires c == 6 ==> Bound(m, EvKern) == Some(Ticket(C, 3 * i + 2))
    ensures
      var m' := Issue(m, SplitCmd(i, c), inp);
      && m'.h == (if c <= 2 then Queue(m.h.ops + [OpH(5 * i + c)], m.h.ran)
                  else if c >= 6 then Queue(m.h.ops + [OpH(5 * i + c - 3)], m.h.ran) else m.h)
      && m'.c == (if 3 <= c <= 5 then Queue(m.c.ops + [OpC(3 * i + c - 3)], m.c.ran) else m.c)
      && m'.d == m.d && m'.mem == m.mem && m'.log == m.log
      && m'.last == (if c == 2 then m.last[EvH2D := Ticket(H, |m.h.ops|)]
                     else if c == 5 then m.last[EvKern := Ticket(C, |m.c.ops|)] else m.last)
  {
    OpsAt(i);
    hide OpH;
    hide OpC;
    hide Set;
  }

  lemma OpsAt(i: nat)
    ensures OpH(5 * i) == Do(CopyA(i)) && OpH(5 * i + 1) == Do(CopyB(i)) && OpH(5 * i + 2) == Mark(EvH2D)
    ensures OpH(5 * i + 3) == Hold(Some(Ticket(C, 3 * i + 2))) && OpH(5 * i + 4) == Do(CopyC(i))
    ensures OpC(3 * i) == Hold(Some(Ticket(H, 5 * i + 2))) && OpC(3 * i + 1) == Do(Kernel(i))
            && OpC(3 * i + 2) == Mark(EvKern)
  {
  }

  lemma HostLanes<V(!new)>(b: Bench<V>, b': Bench<V>, i: nat, c: nat)
    requires LanesInv(b) && EventsInv(b) && c < 8 && b.pc == 8 * i + c < 8 * b.n
    requires b' == b.(m := Issue(b.m, SplitCmd(i, c), b.inp), pc := b.pc + 1)
    ensures LanesInv(b')
  {
    hide Pipeline.LaneIs;
    hide OpH;
    hide OpC;
    hide Issue;
    hide SplitCmd;
    CountsAt(i, c);
    CmdEffect(b.m, b.inp, i, c);
    hide CountH;
    hide CountC;
    hide EventsInv;
    if 3 <= c <= 5 {
      assert CountC(b.pc) == 3 * i + c - 3 && CountC(b.pc + 1) == CountC(b.pc) + 1 && CountH(b.pc + 1) == CountH(b.pc);
      Pipeline.LaneAppend(b.m.c, 0, CountC(b.pc), COps());
    } else {
      assert CountH(b.pc) == (if c <= 2 then 5 * i + c else 5 * i + c - 3) && CountH(b.pc + 1) == CountH(b.pc) + 1
             && CountC(b.pc + 1) == CountC(b.pc);
      Pipeline.LaneAppend(b.m.h, 0, CountH(b.pc), HOps());
    }
  }

  lemma HostEvents<V(!new)>(b: Bench<V>, b': Bench<V>, i: nat, c: nat)
    requires LanesInv(b) && EventsInv(b) && c < 8 && b.pc == 8 * i + c < 8 * b.n
    requires b' == b.(m := Issue(b.m, SplitCmd(i, c), b.inp), pc := b.pc + 1)
    ensures EventsInv(b')
    ensures b'.m.mem == b.m.mem && b'.m.log == b.m.log && b'.m.h.ran == b.m.h.ran && b'.m.c.ran == b.m.c.ran
  {
    CountsAt(i, c);
    hide CountH;
    hide CountC;
    CmdEffect(b.m, b.inp, i, c);
    hide Issue;
    hide SplitCmd;
    hide Pipeline.LaneIs;
    hide OpH;
    hide OpC;
    Pipeline.LaneBounds(b.m.h, 0, CountH(b.pc), HOps());
    Pipeline.LaneBounds(b.m.c, 0, CountC(b.pc), COps());
  }

  // ----- device steps

  lemma LaneHeads<V(!new)>(b: Bench<V>)
    requires LanesInv(b)
    ensures b.m.h.ran <= |b.m.h.ops| == CountH(b.pc) && b.m.c.ran <= |b.m.c.ops| == CountC(b.pc)
    ensures b.m.h.ran < |b.m.h.ops| ==> b.m.h.ops[b.m.h.ran] == OpH(b.m.h.ran)
    ensures b.m.c.ran < |b.m.c.ops| ==> b.m.c.ops[b.m.c.ran] == OpC(b.m.c.ran)
  {
    hide CountH;
    hide CountC;
    hide OpH;
    hide OpC;
    if b.m.h.ran < |b.m.h.ops| { Pipeline.LaneAt(b.m.h, 0, CountH(b.pc), HOps(), b.m.h.ran); }
    if b.m.c.ran < |b.m.c.ops| { Pipeline.LaneAt(b.m.c, 0, CountC(b.pc), COps(), b.m.c.ran); }
  }

  lemma DeviceLanes<V(!new)>(b: Bench<V>, lane: Lane, b': Bench<V>)
    requires CanRun(b.m, lane) && b' == b.(m := Run(b.m, lane, b.inp.gemm)) && LanesInv(b) && EventsInv(b)
    ensures LanesInv(b') && EventsInv(b')
  {
    hide CountH;
    hide CountC;
    hide OpH;
    hide OpC;
  }

  /** A wait at the head of a lane only lets go when the other lane has handed over. */
  lemma Gate<V(!new)>(b: Bench<V>, lane: Lane)
    requires LanesInv(b) && CanRun(b.m, lane)
    ensures lane != D
    ensures lane == C && b.m.c.ran % 3 == 0 ==> b.m.h.ran >= 5 * (b.m.c.ran / 3) + 3
    ensures lane == H && b.m.h.ran % 5 == 3 ==> b.m.c.ran >= 3 * (b.m.h.ran / 5) + 3
  {
    LaneHeads(b);
    hide CountH;
    hide CountC;
    hide Pipeline.LaneIs;
  }

  lemma DeviceOrder<V(!new)>(b: Bench<V>, lane: Lane, b': Bench<V>)
    requires CanRun(b.m, lane) && b' == b.(m := Run(b.m, lane, b.inp.gemm)) && LanesInv(b) && OrderInv(b)
    ensures OrderInv(b')
  {
    Gate(b, lane);
    hide LanesInv;
    forall i: nat | b'.m.c.ran > 3 * i ensures b'.m.h.ran >= 5 * i + 3 {
      if b.m.c.ran == 3 * i {
        assert b.m.c.ran / 3 == i;
      }
    }
    forall i: nat | b'.m.h.ran > 5 * i + 3 ensures b'.m.c.ran >= 3 * i + 3 {
      if b.m.h.ran == 5 * i + 3 {
        assert b.m.h.ran / 5 == i && b.m.h.ran % 5 == 3;
      }
    }
  }

  /** Where each lane stands determines where the other one stands. */
  lemma Positions<V(!new)>(b: Bench<V>, lane: Lane)
    requires LanesInv(b) && OrderInv(b) && CanRun(b.m, lane)
    ensures lane == H ==> b.m.c.ran == 3 * (b.m.h.ran / 5) + (if b.m.h.ran % 5 >= 3 then 3 else 0)
    ensures lane == C ==> b.m.h.ran == 5 * (b.m.c.ran / 3) + 3
  {
    Gate(b, lane);
    hide LanesInv;
    var i, k := b.m.h.ran / 5, b.m.c.ran / 3;
    if lane == H {
      if i > 0 {
        assert b.m.h.ran > 5 * (i - 1) + 3;
        assert b.m.c.ran >= 3 * (i - 1) + 3;
      }
      if b.m.h.ran % 5 == 4 {
        assert b.m.h.ran > 5 * i + 3;
      }
      assert b.m.c.ran > 3 * (i + 1) ==> b.m.h.ran >= 5 * (i + 1) + 3;
      assert b.m.c.ran > 3 * i ==> b.m.h.ran >= 5 * i + 3;
    } else {
      if b.m.c.ran % 3 != 0 {
        assert b.m.c.ran > 3 * k;
      }
      assert b.m.h.ran >= 5 * k + 3;
      assert b.m.h.ran > 5 * k + 3 ==> b.m.c.ran >= 3 * k + 3;
    }
  }

  lemma WorkCounts(i: nat, c: nat)
    ensures c < 5 ==> WorkH(5 * i + c) == 3 * i + (if c <= 1 then c else 2)
    ensures c < 5 ==> WorkH(5 * i + c + 1) == 3 * i + (if c == 0 then 1 else if c <= 3 then 2 else 3)
    ensures c < 3 ==> WorkC(3 * i + c) == i + (if c == 2 then 1 else 0)
    ensures c < 3 ==> WorkC(3 * i + c + 1) == i + (if c >= 1 then 1 else 0)
    ensures c < 4 ==> (4 * i + c) / 4 == i && (4 * i + c) % 4 == c
  {
  }

  /** Work at the head of the copy lane is the next entry of the serial schedule. */
  lemma NextCopyIsSerial<V(!new)>(b: Bench<V>)
    requires LanesInv(b) && OrderInv(b) && LogInv(b) && CanRun(b.m, H)
    ensures
      var op := b.m.h.ops[b.m.h.ran];
      && (op.Do? ==> op.work == Serial(|b.m.log|))
      && |b.m.log| + (if op.Do? then 1 else 0) == WorkH(b.m.h.ran + 1) + WorkC(b.m.c.ran)
  {
    hide LanesInv;
    hide OrderInv;
    hide WorkH;
    hide WorkC;
    hide OpH;
    hide Serial;
    LaneHeads(b);
    Positions(b, H);
    SerialCopy(b.m.h.ran / 5, b.m.h.ran % 5);
  }

  lemma SerialCopy(i: nat, c: nat)
    requires c < 5
    ensures
      var r, op := 5 * i + c, OpH(5 * i + c);
      var len := WorkH(r) + WorkC(3 * i + (if c >= 3 then 3 else 0));
      && (op.Do? ==> op.work == Serial(len))
      && len + (if op.Do? then 1 else 0) == WorkH(r + 1) + WorkC(3 * i + (if c >= 3 then 3 else 0))
  {
    WorkCounts(i, c);
    WorkCounts(i, 0);
    WorkCounts(i + 1, 0);
    WorkCounts(i, if c == 4 then 3 else 0);
    assert (5 * i + c) / 5 == i && (5 * i + c) % 5 == c;
    assert 3 * i + 3 == 3 * (i + 1) + 0;
    hide WorkH;
    hide WorkC;
  }

  /** And so is work at the head of the compute lane. */
  lemma NextKernelIsSerial<V(!new)>(b: Bench<V>)
    requires LanesInv(b) && OrderInv(b) && LogInv(b) && CanRun(b.m, C)
    ensures
      var op := b.m.c.ops[b.m.c.ran];
      && (op.Do? ==> op.work == Serial(|b.m.log|))
      && |b.m.log| + (if op.Do? then 1 else 0) == WorkH(b.m.h.ran) + WorkC(b.m.c.ran + 1)
  {
    hide LanesInv;
    hide OrderInv;
    hide WorkH;
    hide WorkC;
    hide OpC;
    hide Serial;
    LaneHeads(b);
    Positions(b, C);
    SerialKernel(b.m.c.ran / 3, b.m.c.ran % 3);
  }

  lemma SerialKernel(i: nat, c: nat)
    requires c < 3
    ensures
      var r, op := 3 * i + c, OpC(3 * i + c);
      var len := WorkH(5 * i + 3) + WorkC(r);
      && (op.Do? ==> op.work == Serial(len))
      && len + (if op.Do? then 1 else 0) == WorkH(5 * i + 3) + WorkC(r + 1)
  {
    WorkCounts(i, c);
    WorkCounts(i, 3);
    WorkCounts(i, 2);
    assert (3 * i + c) / 3 == i && (3 * i + c) % 3 == c;
    hide WorkH;
    hide WorkC;
  }

  lemma DeviceLog<V(!new)>(b: Bench<V>, lane: Lane, b': Bench<V>)
    requires CanRun(b.m, lane) && b' == b.(m := Run(b.m, lane, b.inp.gemm))
    requires LanesInv(b) && OrderInv(b) && LogInv(b)
    ensures LogInv(b')
  {
    hide LanesInv;
    hide OrderInv;
    hide WorkH;
    hide WorkC;
    hide Serial;
    hide OpH;
    hide OpC;
    hide DoWork;
    Gate(b, lane);
    if lane == H {
      NextCopyIsSerial(b);
    } else {
      NextKernelIsSerial(b);
    }
  }

  /** One more entry of the serial schedule. */
  lemma SerialMem<V(!new)>(b: Bench<V>, b': Bench<V>, w: Work, i: nat)
    requires w == Serial(|b.m.log|) && JobMem(b, i)
    requires b'.m.log == b.m.log + [w] && b'.m.mem == DoWork(b.m.mem, w, b.inp.gemm) && b'.inp == b.inp
    ensures JobMem(b', i)
  {
    var k, c := |b.m.log| / 4, |b.m.log| % 4;
    assert |b.m.log| == 4 * k + c;
  }

  lemma DeviceMem<V(!new)>(b: Bench<V>, lane: Lane, b': Bench<V>)
    requires CanRun(b.m, lane) && b' == b.(m := Run(b.m, lane, b.inp.gemm))
    requires LanesInv(b) && OrderInv(b) && LogInv(b) && MemInv(b)
    ensures MemInv(b')
  {
    hide LanesInv;
    hide OrderInv;
    hide WorkH;
    hide WorkC;
    hide Serial;
    hide OpH;
    hide OpC;
    hide DoWork;
    Gate(b, lane);
    if lane == H {
      NextCopyIsSerial(b);
    } else {
      NextKernelIsSerial(b);
    }
    hide LogInv;
    var op := b.m.Q(lane).ops[b.m.Q(lane).ran];
    forall i: nat ensures JobMem(b', i) {
      assert JobMem(b, i);
      if op.Do? {
        SerialMem(b, b', op.work, i);
      }
    }
  }

  lemma StepInv<V(!new)>(b: Bench<V>, a: Option<Lane>, b': Bench<V>)
    requires Enabled(b, a) && b' == Apply(b, a) && Inv(b)
    ensures Inv(b')
  {
    hide LanesInv;
    hide EventsInv;
    hide OrderInv;
    hide LogInv;
    hide MemInv;
    hide SplitOrder;
    hide SplitCmd;
    match a
    case None =>
      SplitOrderAt(b.n, b.pc / 8, b.pc % 8);
      HostLanes(b, b', b.pc / 8, b.pc % 8);
      HostEvents(b, b', b.pc / 8, b.pc % 8);
      SameRuns(b, b');
    case Some(lane) =>
      DeviceLanes(b, lane, b');
      DeviceOrder(b, lane, b');
      DeviceLog(b, lane, b');
      DeviceMem(b, lane, b');
  }

  lemma SameRuns<V(!new)>(b: Bench<V>, b': Bench<V>)
    requires OrderInv(b) && LogInv(b) && MemInv(b)
    requires b'.m.mem == b.m.mem && b'.m.log == b.m.log && b'.m.h.ran == b.m.h.ran && b'.m.c.ran == b.m.c.ran
             && b'.inp == b.inp
    ensures OrderInv(b') && LogInv(b') && MemInv(b')
  {
    forall x: nat ensures JobMem(b', x) { assert JobMem(b, x); }
  }

  lemma InitInv<V(!new)>(b: Bench<V>)
    requires Init(b)
    ensures Inv(b)
  {
  }

  lemma {:induction false} RunInv<V(!new)>(bs: seq<Bench<V>>, acts: seq<Option<Lane>>)
    requires IsRun(bs, acts)
    ensures Inv(bs[|acts|])
    decreases |acts|
  {
    hide Inv;
    if acts == [] {
      InitInv(bs[0]);
    } else {
      var k := |acts| - 1;
      assert IsRun(bs[..|acts|], acts[..k]) by {
        forall x | 0 <= x < k
          ensures Enabled(bs[..|acts|][x], acts[..k][x])
                  && bs[..|acts|][x + 1] == Apply(bs[..|acts|][x], acts[..k][x])
        {
          assert Enabled(bs[x], acts[x]) && bs[x + 1] == Apply(bs[x], acts[x]);
        }
      }
      RunInv(bs[..|acts|], acts[..k]);
      assert Enabled(bs[k], acts[k]) && bs[k + 1] == Apply(bs[k], acts[k]);
      hide Enabled;
      hide Apply;
      StepInv(bs[k], acts[k], bs[k + 1]);
    }
  }

  // ----- theorems

  /** The order on one copy stream admits exactly one schedule: whatever the device does, the copies
      and kernels run in the serial order, and at no moment can two lanes run. */
  lemma ExactlyOneSchedule<V(!new)>(bs: seq<Bench<V>>, acts: seq<Option<Lane>>)
    requires IsRun(bs, acts)
    ensures
      var m := bs[|acts|].m;
      && (forall k: nat :: k < |m.log| ==> m.log[k] == Serial(k))
      && !(CanRun(m, H) && CanRun(m, C)) && !CanRun(m, D)
  {
    RunInv(bs, acts);
    var b := bs[|acts|];
    AtMostOneLane(b);
    hide LanesInv;
    hide OrderInv;
  }

  lemma AtMostOneLane<V(!new)>(b: Bench<V>)
    requires LanesInv(b) && OrderInv(b)
    ensures !(CanRun(b.m, H) && CanRun(b.m, C)) && !CanRun(b.m, D)
  {
    assert !CanRun(b.m, D);
    hide LanesInv;
    hide OrderInv;
    if CanRun(b.m, H) && CanRun(b.m, C) {
      Positions(b, H);
      Positions(b, C);
      Gate(b, H);
      assert false;
    }
  }

  /** It does not deadlock: while operations are pending one of them can run. */
  lemma SplitNeverDeadlocks<V(!new)>(bs: seq<Bench<V>>, acts: seq<Option<Lane>>)
    requires IsRun(bs, acts) && bs[|acts|].pc == 8 * bs[|acts|].n && !Idle(bs[|acts|].m)
    ensures CanRun(bs[|acts|].m, H) || CanRun(bs[|acts|].m, C)
  {
    RunInv(bs, acts);
    SomeLaneCanRun(bs[|acts|]);
  }

  lemma SomeLaneCanRun<V(!new)>(b: Bench<V>)
    requires LanesInv(b) && OrderInv(b) && b.pc == 8 * b.n && !Idle(b.m)
    ensures CanRun(b.m, H) || CanRun(b.m, C)
  {
    CountsAt(b.n, 0);
    LaneHeads(b);
    hide CountH;
    hide CountC;
    hide Pipeline.LaneIs;
    if b.m.h.ran < |b.m.h.ops| && b.m.h.ran % 5 == 3 && b.m.c.ran < 3 * (b.m.h.ran / 5) + 3 {
      ComputeFollows(b);
    }
  }

  /** The copy lane waits for a kernel that the compute lane can reach. */
  lemma ComputeFollows<V(!new)>(b: Bench<V>)
    requires LanesInv(b) && OrderInv(b) && b.pc == 8 * b.n
    requires b.m.h.ran < |b.m.h.ops| && b.m.h.ran % 5 == 3 && b.m.c.ran < 3 * (b.m.h.ran / 5) + 3
    ensures CanRun(b.m, C)
  {
    CountsAt(b.n, 0);
    LaneHeads(b);
    hide LanesInv;
    hide CountH;
    hide CountC;
    var i := b.m.h.ran / 5;
    if i > 0 {
      assert b.m.h.ran > 5 * (i - 1) + 3;
    }
  }

  /** When all of it has run, every job's result buffer holds the product of its own inputs: the
      same host results as the double-buffered order. */
  lemma SplitResultsAreCorrect<V(!new)>(bs: seq<Bench<V>>, acts: seq<Option<Lane>>, i: nat)
    requires IsRun(bs, acts) && bs[|acts|].pc == 8 * bs[|acts|].n && Idle(bs[|acts|].m) && i < bs[|acts|].n
    ensures
      var b := bs[|acts|];
      b.m.mem.hc(i) == b.inp.gemm(b.inp.a(i), b.inp.b(i)) && |b.m.log| == 4 * b.n
  {
    RunInv(bs, acts);
    AllRun(bs[|acts|]);
    var b := bs[|acts|];
    hide LanesInv;
    hide LogInv;
    assert JobMem(b, i);
  }

  lemma AllRun<V(!new)>(b: Bench<V>)
    requires LanesInv(b) && LogInv(b) && b.pc == 8 * b.n && Idle(b.m)
    ensures |b.m.log| == 4 * b.n
  {
    hide LanesInv;
    hide CountH;
    hide CountC;
    hide WorkH;
    hide WorkC;
    WorkAtEnd(b.n);
    LaneHeads(b);
  }

  lemma WorkAtEnd(n: nat)
    ensures CountH(8 * n) == 5 * n && CountC(8 * n) == 3 * n && WorkH(5 * n) == 3 * n && WorkC(3 * n) == n
  {
  }
}
