/** In the three-stream order the copies of the next job and the kernel of this one are independent:
    for every pair of neighbours the device may run either of them first. */
module StageIndependence {
  import opened Streams
  import opened Wrappers
  import opened Pipeline

  ghost predicate Reachable<V(!new)>(w: Worker<V>) {
    exists ws: seq<Worker<V>>, acts: seq<Action<V>> :: IsRun(ws, acts) && ws[|acts|] == w
  }

  lemma ReachInit<V(!new)>(w: Worker<V>)
    requires Init(w)
    ensures Reachable(w)
  {
    var acts: seq<Action<V>> := [];
    assert IsRun([w], acts) && [w][|acts|] == w;
  }

  lemma ReachStep<V(!new)>(w: Worker<V>, a: Action<V>)
    requires Reachable(w) && Enabled(w, a)
    ensures Reachable(Apply(w, a))
  {
    hide Enabled;
    hide Apply;
    var ws, acts :| IsRun(ws, acts) && ws[|acts|] == w;
    var ws', acts' := ws + [Apply(w, a)], acts + [a];
    forall k | 0 <= k < |acts'| ensures Enabled(ws'[k], acts'[k]) && ws'[k + 1] == Apply(ws'[k], acts'[k]) {
      if k < |acts| {
        assert Enabled(ws[k], acts[k]) && ws[k + 1] == Apply(ws[k], acts[k]);
      }
    }
    assert IsRun(ws', acts') && ws'[|acts'|] == Apply(w, a);
  }

  /** The first batch of a worker, everything up to command `pc` issued and nothing run yet. */
  ghost predicate FirstBatch<V(!new)>(w: Worker<V>, n: nat, pc: nat) {
    && Reachable(w) && Inv(w)
    && w.n == n && w.abandonAt == None && w.pc == pc && w.base == Base(0, 0, 0)
  }

  lemma {:induction false} IssueUpTo<V(!new)>(start: Worker<V>, n: nat, pc: nat) returns (w: Worker<V>)
    requires Init(start) && n > 0 && pc <= 10 * n
    ensures FirstBatch(w, n, pc) && w.m.h.ran == w.m.c.ran == w.m.d.ran == 0
    decreases pc
  {
    if pc == 0 {
      ReachInit(start);
      InitInv(start);
      assert start.Prog() == [];
      var a := NextBatch(n, start.inp, None);
      ReachStep(start, a);
      StepInv(start, a, Apply(start, a));
      w := Apply(start, a);
    } else {
      var v := IssueUpTo(start, n, pc - 1);
      assert |v.Prog()| == 11 * n;
      ProgAt(v, pc - 1);
      ReachStep(v, HostStep);
      StepInv(v, HostStep, Apply(v, HostStep));
      HostMem(v, Apply(v, HostStep));
      w := Apply(v, HostStep);
    }
  }

  /** With everything issued the copy-in lane never has to wait. */
  lemma {:induction false} RunCopies<V(!new)>(start: Worker<V>, n: nat, k: nat) returns (w: Worker<V>)
    requires Init(start) && n > 0 && k <= 3 * n
    ensures FirstBatch(w, n, 10 * n) && w.m.h.ran == k && w.m.c.ran == w.m.d.ran == 0
    decreases k
  {
    hide Reachable;
    hide Inv;
    hide FirstBatch;
    if k == 0 {
      w := IssueUpTo(start, n, 10 * n);
    } else {
      var v := RunCopies(start, n, k - 1);
      CopyLaneCanRun(v, n);
      w := RunLane(v, H, n);
    }
  }

  lemma CopyLaneCanRun<V(!new)>(v: Worker<V>, n: nat)
    requires FirstBatch(v, n, 10 * n) && v.m.h.ran < 3 * n
    ensures CanRun(v.m, H)
  {
    hide Reachable;
    CountsAt(n, 0);
    hide CountH;
    hide CountC;
    hide CountD;
    LaneHeads(v);
    hide LanesInv;
    hide EventsInv;
    hide MemInv;
    hide OrderInv;
    hide SyncInv;
  }

  lemma KernelLaneHead<V(!new)>(v: Worker<V>, n: nat)
    requires FirstBatch(v, n, 10 * n) && v.m.c.ran < 3 * n
    ensures v.m.c.ran < |v.m.c.ops| && v.m.c.ops[v.m.c.ran] == OpC(Base(0, 0, 0), v.m.c.ran)
    ensures v.m.h.ran <= |v.m.h.ops|
  {
    hide Reachable;
    hide OpC;
    hide LanesInv;
    hide EventsInv;
    hide MemInv;
    hide OrderInv;
    hide SyncInv;
    assert LanesInv(v);
    LaneHeads(v);
    hide Inv;
    LaneCounts(n, 0);
    hide CountH;
    hide CountC;
    hide CountD;
  }

  lemma KernelLaneCanRun<V(!new)>(v: Worker<V>, n: nat)
    requires FirstBatch(v, n, 10 * n) && v.m.c.ran < 3 * n
    requires v.m.h.ran >= 3 * (v.m.c.ran / 3) + 3
    ensures CanRun(v.m, C)
  {
    hide FirstBatch;
    KernelLaneHead(v, n);
  }

  lemma RunLane<V(!new)>(v: Worker<V>, lane: Lane, n: nat) returns (w: Worker<V>)
    requires FirstBatch(v, n, 10 * n) && CanRun(v.m, lane)
    ensures FirstBatch(w, n, 10 * n)
    ensures w.m.h.ran == v.m.h.ran + (if lane == H then 1 else 0)
    ensures w.m.c.ran == v.m.c.ran + (if lane == C then 1 else 0)
    ensures w.m.d.ran == v.m.d.ran + (if lane == D then 1 else 0)
  {
    ReachStep(v, DeviceStep(lane));
    hide Reachable;
    StepInv(v, DeviceStep(lane), Apply(v, DeviceStep(lane)));
    hide Inv;
    w := Apply(v, DeviceStep(lane));
  }

  lemma {:induction false} RunKernels<V(!new)>(start: Worker<V>, n: nat, i: nat, k: nat) returns (w: Worker<V>)
    requires Init(start) && i < n && k <= 3 * i + 3
    ensures FirstBatch(w, n, 10 * n) && w.m.h.ran == 3 * i + 3 && w.m.c.ran == k && w.m.d.ran == 0
    decreases k
  {
    hide Reachable;
    hide Inv;
    hide FirstBatch;
    if k == 0 {
      w := RunCopies(start, n, 3 * i + 3);
    } else {
      var v := RunKernels(start, n, i, k - 1);
      KernelLaneCanRun(v, n);
      w := RunLane(v, C, n);
    }
  }

  /** Whether the copies of job `i` and its kernel have run in the first batch. */
  ghost predicate CopiesRan<V(!new)>(w: Worker<V>, i: nat) {
    w.m.h.ran >= w.base.h + 3 * i + 2
  }

  ghost predicate KernelRan<V(!new)>(w: Worker<V>, i: nat) {
    w.m.c.ran >= w.base.c + 3 * i + 2
  }

  /** Independence. For any batch and any neighbouring jobs there is a run in which the copies of
      job `i + 1` have run while the kernel of job `i` has not, and one in which it is the other way
      round; the single-copy-stream order admits only the latter. */
  lemma NextCopiesOverlapKernel<V(!new)>(start: Worker<V>, n: nat, i: nat)
    requires Init(start) && i + 1 < n
    ensures exists w: Worker<V> :: Reachable(w) && w.n == n && CopiesRan(w, i + 1) && !KernelRan(w, i)
    ensures exists w: Worker<V> :: Reachable(w) && w.n == n && KernelRan(w, i) && !CopiesRan(w, i + 1)
  {
    var ahead := RunCopies(start, n, 3 * (i + 1) + 2);
    assert Reachable(ahead) && ahead.n == n && CopiesRan(ahead, i + 1) && !KernelRan(ahead, i);
    var behind := RunKernels(start, n, i, 3 * i + 2);
    assert Reachable(behind) && behind.n == n && KernelRan(behind, i) && !CopiesRan(behind, i + 1);
  }
}
