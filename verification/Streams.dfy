/** Device streams and events. A stream is a first-in-first-out lane of operations; recording an
    event marks a position of a lane, and a wait is bound, when the host issues it, to the record
    of that event most recently issued. `V` is the type of a matrix batch. */
module Streams {
  import opened Wrappers

  datatype Lane = H | C | D

  datatype Event = HDone(i: nat) | KDone(i: nat) | Done(i: nat) | EvH2D | EvKern

  datatype Work = CopyA(i: nat) | CopyB(i: nat) | Kernel(i: nat) | CopyC(i: nat)

  /** A position in a lane. */
  datatype Ticket = Ticket(lane: Lane, pos: nat)

  datatype Op = Do(work: Work) | Mark(e: Event) | Hold(dep: Option<Ticket>)

  /** Host-side commands. */
  datatype Cmd =
    | Fill(i: nat)
    | Launch(lane: Lane, work: Work)
    | RecordEvent(lane: Lane, e: Event)
    | WaitEvent(lane: Lane, e: Event)
    | Sync(e: Event)
    | DeviceSync

  /** Operations issued to a lane and how many of them have run. */
  datatype Queue = Queue(ops: seq<Op>, ran: nat)

  /** Host and device buffers, indexed by position in the batch. */
  datatype Mem<!V> = Mem(ha: nat -> V, hb: nat -> V, da: nat -> V, db: nat -> V, dc: nat -> V, hc: nat -> V)

  /** `log` is the history of the work executed so far. */
  datatype Machine<!V> = Machine(h: Queue, c: Queue, d: Queue, last: map<Event, Ticket>, mem: Mem<V>, log: seq<Work>)
  {
    function Q(lane: Lane): Queue {
      match lane case H => h case C => c case D => d
    }

    function With(lane: Lane, q: Queue): Machine<V> {
      match lane case H => this.(h := q) case C => this.(c := q) case D => this.(d := q)
    }
  }

  /** Inputs of the jobs of a batch, and what the kernel computes from two operands. */
  datatype Inputs<!V> = Inputs(a: nat -> V, b: nat -> V, gemm: (V, V) -> V)

  function Set<V>(f: nat -> V, i: nat, v: V): nat -> V {
    (k: nat) => if k == i then v else f(k)
  }

  function DoWork<V>(mem: Mem<V>, w: Work, gemm: (V, V) -> V): Mem<V> {
    match w
    case CopyA(i) => mem.(da := Set(mem.da, i, mem.ha(i)))
    case CopyB(i) => mem.(db := Set(mem.db, i, mem.hb(i)))
    case Kernel(i) => mem.(dc := Set(mem.dc, i, gemm(mem.da(i), mem.db(i))))
    case CopyC(i) => mem.(hc := Set(mem.hc, i, mem.dc(i)))
  }

  function Append<V(!new)>(m: Machine<V>, lane: Lane, op: Op): Machine<V> {
    m.With(lane, Queue(m.Q(lane).ops + [op], m.Q(lane).ran))
  }

  function Bound<V(!new)>(m: Machine<V>, e: Event): Option<Ticket> {
    if e in m.last then Some(m.last[e]) else None
  }

  /** The record a ticket stands for has completed. */
  predicate Fired<V(!new)>(m: Machine<V>, t: Option<Ticket>) {
    t.None? || m.Q(t.value.lane).ran > t.value.pos
  }

  predicate Idle<V(!new)>(m: Machine<V>) {
    m.h.ran == |m.h.ops| && m.c.ran == |m.c.ops| && m.d.ran == |m.d.ops|
  }

  // ----- host steps

  predicate CanIssue<V(!new)>(m: Machine<V>, cmd: Cmd) {
    match cmd
    case Sync(e) => Fired(m, Bound(m, e))
    case DeviceSync => Idle(m)
    case _ => true
  }

  function Issue<V(!new)>(m: Machine<V>, cmd: Cmd, inp: Inputs<V>): Machine<V> {
    match cmd
    case Fill(i) => m.(mem := m.mem.(ha := Set(m.mem.ha, i, inp.a(i)), hb := Set(m.mem.hb, i, inp.b(i))))
    case Launch(lane, work) => Append(m, lane, Do(work))
    case RecordEvent(lane, e) => Append(m, lane, Mark(e)).(last := m.last[e := Ticket(lane, |m.Q(lane).ops|)])
    case WaitEvent(lane, e) => Append(m, lane, Hold(Bound(m, e)))
    case Sync(_) => m
    case DeviceSync => m
  }

  // ----- device steps

  /** The oldest operation of the lane that has not run may run now. */
  predicate CanRun<V(!new)>(m: Machine<V>, lane: Lane) {
    var q := m.Q(lane);
    q.ran < |q.ops| && (q.ops[q.ran].Hold? ==> Fired(m, q.ops[q.ran].dep))
  }

  function Run<V(!new)>(m: Machine<V>, lane: Lane, gemm: (V, V) -> V): Machine<V>
    requires CanRun(m, lane)
  {
    var q := m.Q(lane);
    var m' := m.With(lane, Queue(q.ops, q.ran + 1));
    if q.ops[q.ran].Do?
    then m'.(mem := DoWork(m.mem, q.ops[q.ran].work, gemm), log := m.log + [q.ops[q.ran].work])
    else m'
  }
}
