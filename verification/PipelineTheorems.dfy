/** What holds of every run of the double-buffered pipeline, for every device interleaving. */
module PipelineTheorems {
  import opened Streams
  import opened Wrappers
  import opened Pipeline

  /** Results. Once the host has passed its wait for `Done(i)`, the host result buffer of job `i`
      holds the product of that job's own inputs, and keeps it until the batch ends, although
      streams, events and buffers are reused by every batch of the worker. */
  lemma ResultsAreCorrect<V(!new)>(ws: seq<Worker<V>>, acts: seq<Action<V>>, i: nat)
    requires IsRun(ws, acts)
    requires
      var w := ws[|acts|];
      w.abandonAt.None? && i < w.n && w.pc > 10 * w.n + i
    ensures
      var w := ws[|acts|];
      w.m.mem.hc(i) == w.inp.gemm(w.inp.a(i), w.inp.b(i))
  {
    RunInv(ws, acts);
    var w := ws[|acts|];
    assert SyncInv(w) && MemInv(w);
    assert JobMem(w, i);
  }

  /** If the lane has an operation at `pos`, it is a wait that holds for the record `t`, and that
      record is of event `e`. */
  ghost predicate HoldsFor<V(!new)>(m: Machine<V>, lane: Lane, pos: nat, t: Ticket, e: Event) {
    pos < |m.Q(lane).ops| ==>
      && m.Q(lane).ops[pos] == Hold(Some(t))
      && t.pos < |m.Q(t.lane).ops| && m.Q(t.lane).ops[t.pos] == Mark(e)
  }

  /** Binding. Every wait of this batch holds for the record this batch made of the same job's
      event, at a lane position issued by this batch, and never for a record that an earlier batch
      left in the reused event. */
  lemma WaitsBindToThisBatch<V(!new)>(ws: seq<Worker<V>>, acts: seq<Action<V>>, i: nat)
    requires IsRun(ws, acts)
    ensures
      var w := ws[|acts|];
      && HoldsFor(w.m, C, w.base.c + 3 * i, Ticket(H, w.base.h + 3 * i + 2), HDone(i))
      && HoldsFor(w.m, D, w.base.d + 3 * i, Ticket(C, w.base.c + 3 * i + 2), KDone(i))
  {
    RunInv(ws, acts);
    assert LanesInv(ws[|acts|]);
    hide Inv;
    KernelWaitBinds(ws[|acts|], i);
    CopyOutWaitBinds(ws[|acts|], i);
  }

  lemma KernelWaitBinds<V(!new)>(w: Worker<V>, i: nat)
    requires LanesInv(w)
    ensures HoldsFor(w.m, C, w.base.c + 3 * i, Ticket(H, w.base.h + 3 * i + 2), HDone(i))
  {
    var p := w.Issued();
    WaitAfterRecord(p, i);
    hide LaneIs;
    hide CountH;
    hide CountC;
    LaneBounds(w.m.c, w.base.c, CountC(p), COps(w.base));
    if 3 * i < CountC(p) {
      LaneAt(w.m.c, w.base.c, CountC(p), COps(w.base), 3 * i);
      LaneAt(w.m.h, w.base.h, CountH(p), HOps(), 3 * i + 2);
    }
  }

  lemma CopyOutWaitBinds<V(!new)>(w: Worker<V>, i: nat)
    requires LanesInv(w)
    ensures HoldsFor(w.m, D, w.base.d + 3 * i, Ticket(C, w.base.c + 3 * i + 2), KDone(i))
  {
    var p := w.Issued();
    WaitAfterRecord(p, i);
    hide LaneIs;
    hide CountC;
    hide CountD;
    LaneBounds(w.m.d, w.base.d, CountD(p), DOps(w.base));
    if 3 * i < CountD(p) {
      LaneAt(w.m.d, w.base.d, CountD(p), DOps(w.base), 3 * i);
      LaneAt(w.m.c, w.base.c, CountC(p), COps(w.base), 3 * i + 2);
    }
  }

  /** The host records an event before it issues the wait for it. */
  lemma WaitAfterRecord(p: nat, i: nat)
    ensures CountC(p) > 3 * i ==> CountH(p) >= 3 * i + 3
    ensures CountD(p) > 3 * i ==> CountC(p) >= 3 * i + 3
  {
  }

  /** Stage order. In every interleaving the copies of job `i` run before its kernel and the kernel
      before the copy of its result. */
  lemma StagesRunInOrder<V(!new)>(ws: seq<Worker<V>>, acts: seq<Action<V>>, i: nat)
    requires IsRun(ws, acts)
    ensures
      var w := ws[|acts|];
      && (w.m.c.ran > w.base.c + 3 * i + 1 ==> w.m.h.ran > w.base.h + 3 * i + 1)
      && (w.m.d.ran > w.base.d + 3 * i + 1 ==> w.m.c.ran > w.base.c + 3 * i + 1)
  {
    RunInv(ws, acts);
    var w := ws[|acts|];
    assert w.m.c.ran > w.base.c + 3 * i ==> w.m.h.ran >= w.base.h + 3 * i + 3;
    assert w.m.d.ran > w.base.d + 3 * i ==> w.m.c.ran >= w.base.c + 3 * i + 3;
  }

  /** The lane can run now, and what it would run is work on job `i`'s buffers. */
  ghost predicate WouldWorkOn<V(!new)>(m: Machine<V>, lane: Lane, i: nat) {
    CanRun(m, lane) && m.Q(lane).ops[m.Q(lane).ran].Do? && m.Q(lane).ops[m.Q(lane).ran].work.i == i
  }

  lemma HeadJob<V(!new)>(w: Worker<V>, lane: Lane, i: nat)
    requires LanesInv(w) && WouldWorkOn(w.m, lane, i)
    ensures lane == H ==> w.base.h + 3 * i <= w.m.h.ran < w.base.h + 3 * i + 2
    ensures lane == C ==> w.m.c.ran == w.base.c + 3 * i + 1
    ensures lane == D ==> w.m.d.ran == w.base.d + 3 * i + 1
  {
    HeadWork(w, lane);
    hide LanesInv;
  }

  /** Isolation. Work that two lanes could run at the same moment belongs to different jobs, whose
      buffers are disjoint; and when the host is about to fill the input buffers of job `i`, no
      operation on that job's buffers has been issued for this batch. */
  lemma ConcurrentWorkIsDisjoint<V(!new)>(ws: seq<Worker<V>>, acts: seq<Action<V>>, l1: Lane, l2: Lane, i: nat, k: nat)
    requires IsRun(ws, acts) && l1 != l2
    requires WouldWorkOn(ws[|acts|].m, l1, i) && WouldWorkOn(ws[|acts|].m, l2, k)
    ensures i != k
  {
    RunInv(ws, acts);
    var w := ws[|acts|];
    HeadJob(w, l1, i);
    HeadJob(w, l2, k);
    assert w.m.c.ran > w.base.c + 3 * i ==> w.m.h.ran >= w.base.h + 3 * i + 3;
    assert w.m.d.ran > w.base.d + 3 * i ==> w.m.c.ran >= w.base.c + 3 * i + 3;
  }

  lemma FillTouchesNoIssuedJob<V(!new)>(ws: seq<Worker<V>>, acts: seq<Action<V>>, i: nat, lane: Lane, pos: nat)
    requires IsRun(ws, acts)
    requires
      var w := ws[|acts|];
      w.Valid() && w.pc < |w.Prog()| && w.Prog()[w.pc] == Fill(i)
    requires
      var w := ws[|acts|];
      w.m.Q(lane).ran <= pos < |w.m.Q(lane).ops| && w.m.Q(lane).ops[pos].Do?
    ensures ws[|acts|].m.Q(lane).ops[pos].work.i < i
  {
    RunInv(ws, acts);
    var w := ws[|acts|];
    ProgAt(w, w.pc);
    assert w.pc == 10 * i && w.Issued() == 10 * i && LanesInv(w);
    hide Inv;
    IssuedWorkBefore(w, i, lane, pos);
  }

  lemma IssuedWorkBefore<V(!new)>(w: Worker<V>, i: nat, lane: Lane, pos: nat)
    requires LanesInv(w) && w.Issued() == 10 * i
    requires w.m.Q(lane).ran <= pos < |w.m.Q(lane).ops| && w.m.Q(lane).ops[pos].Do?
    ensures w.m.Q(lane).ops[pos].work.i < i
  {
    CountsAt(i, 0);
    LaneHeads(w);
    var q := pos - (match lane case H => w.base.h case C => w.base.c case D => w.base.d);
    WorkIndex(w.base, q);
    hide LaneIs;
    hide CountH;
    hide CountC;
    hide CountD;
    hide OpH;
    hide OpC;
    hide OpD;
    match lane
    case H => LaneAt(w.m.h, w.base.h, CountH(10 * i), HOps(), q);
    case C => LaneAt(w.m.c, w.base.c, CountC(10 * i), COps(w.base), q);
    case D => LaneAt(w.m.d, w.base.d, CountD(10 * i), DOps(w.base), q);
  }

  lemma WorkIndex(base: Base, q: nat)
    ensures OpH(q).Do? ==> OpH(q).work.i == q / 3
    ensures OpC(base, q).Do? ==> OpC(base, q).work.i == q / 3
    ensures OpD(base, q).Do? ==> OpD(base, q).work.i == q / 3
  {
  }

  /** When the host leaves a batch, completed or abandoned, no operation is pending, so freeing the
      batch's buffers and reusing its events is safe. */
  lemma BatchEndsIdle<V(!new)>(ws: seq<Worker<V>>, acts: seq<Action<V>>)
    requires IsRun(ws, acts) && ws[|acts|].Valid() && ws[|acts|].pc == |ws[|acts|].Prog()|
    ensures Idle(ws[|acts|].m)
  {
    RunInv(ws, acts);
    assert SyncInv(ws[|acts|]);
  }

  /** A lane with pending operations can run, or an earlier stage can. */
  lemma SomeLaneCanRun<V(!new)>(w: Worker<V>) returns (lane: Lane)
    requires LanesInv(w) && !Idle(w.m)
    ensures CanRun(w.m, lane)
  {
    var p := w.Issued();
    LaneHeads(w);
    hide LanesInv;
    WaitAfterRecord(p, (w.m.c.ran - w.base.c) / 3);
    WaitAfterRecord(p, (w.m.d.ran - w.base.d) / 3);
    hide CountH;
    hide CountC;
    hide CountD;
    lane := if w.m.h.ran < |w.m.h.ops| then H else if w.m.c.ran < |w.m.c.ops| then C else D;
  }

  /** Deadlock freedom. As long as a batch is not finished, the host can go on or some lane can run,
      whatever happened before. */
  lemma PipelineNeverDeadlocks<V(!new)>(ws: seq<Worker<V>>, acts: seq<Action<V>>)
    requires IsRun(ws, acts) && ws[|acts|].Valid() && ws[|acts|].pc < |ws[|acts|].Prog()|
    ensures exists a: Action<V> :: !a.NextBatch? && Enabled(ws[|acts|], a)
  {
    RunInv(ws, acts);
    var w := ws[|acts|];
    if Idle(w.m) {
      IdleHostCanIssue(w);
      assert Enabled(w, HostStep);
    } else {
      var lane := SomeLaneCanRun(w);
      assert Enabled(w, DeviceStep(lane));
    }
  }

  lemma IdleHostCanIssue<V(!new)>(w: Worker<V>)
    requires Inv(w) && Idle(w.m) && w.pc < |w.Prog()|
    ensures CanIssue(w.m, w.Prog()[w.pc])
  {
    ProgAt(w, w.pc);
    var cmd := w.Prog()[w.pc];
    if cmd.Sync? {
      var i := w.pc - 10 * w.n;
      SyncTarget(w);
      assert cmd == Sync(Done(i)) && i < w.n;
      CountsAt(w.n, 0);
      RecordAt(w.m.last, D, w.base.d, w.n, DEvent(), i);
      LaneHeads(w);
    }
  }

  lemma SyncTarget<V(!new)>(w: Worker<V>)
    requires w.Valid() && w.pc < |w.Prog()| && w.Prog()[w.pc].Sync?
    ensures w.pc >= 10 * w.n && w.pc - 10 * w.n < w.n && w.Prog()[w.pc] == Sync(Done(w.pc - 10 * w.n))
    ensures w.Enq() == 10 * w.n
  {
    ProgAt(w, w.pc);
    if w.abandonAt.Some? {
      assert w.Prog()[w.pc] == FullProgram(w.n)[w.pc];
    }
  }
}
