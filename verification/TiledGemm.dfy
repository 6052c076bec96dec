/** The tiled kernel: a block of 32 by 32 threads walks along k in steps of 32. In each step the
    threads fill two shared tiles, wait at a barrier, accumulate from the tiles, and wait again.
    Between two barriers the threads interleave arbitrarily. */
module TiledGemm {
  import opened Jobs
  import opened Gemm

  const BLOCK: nat := 32

  /** The block's position in the grid. */
  datatype Tile = Tile(x: nat, y: nat, z: nat)

  predicate TileLaunched(s: Dims, p: Tile) {
    p.x < Blocks(s.n, BLOCK) && p.y < Blocks(s.m, BLOCK) && p.z < s.batch
  }

  function ThreadAt(p: Tile, ty: nat, tx: nat): Thread {
    Thread(p.x, p.y, p.z, tx, ty)
  }

  function Row(p: Tile, ty: nat): nat { RowOf(BLOCK, ThreadAt(p, ty, 0)) }

  function Col(p: Tile, tx: nat): nat { ColOf(BLOCK, ThreadAt(p, 0, tx)) }

  /** K rounded up to whole tiles: the number of steps every accumulator makes. */
  function RoundedUp(k: nat): nat {
    Blocks(k, BLOCK) * BLOCK
  }

  // ----- the zero-padded operands

  ghost function PaddedA<F>(ar: Arith<F>, a: seq<F>, s: Dims, bt: nat, row: nat, k: nat): F
    requires |a| == s.batch * (s.m * s.k) && bt < s.batch
  {
    if row < s.m && k < s.k then
      FlatBound(bt, row, k, s.batch, s.m, s.k);
      a[Flat(bt, row, k, s.m, s.k)]
    else ar.zero
  }

  ghost function PaddedB<F>(ar: Arith<F>, b: seq<F>, s: Dims, bt: nat, k: nat, col: nat): F
    requires |b| == s.batch * (s.k * s.n) && bt < s.batch
  {
    if k < s.k && col < s.n then
      FlatBound(bt, k, col, s.batch, s.k, s.n);
      b[Flat(bt, k, col, s.k, s.n)]
    else ar.zero
  }

  /** One step on padded operands, for any arithmetic: within k a step of the product, past it a step
      on two zeros. */
  lemma PaddedStep<F>(ar: Arith<F>, a: seq<F>, b: seq<F>, s: Dims, bt: nat, row: nat, col: nat, k: nat)
    requires Sized(s, a, b) && InBounds(s, bt, row, col)
    ensures ar.mac(PadDot(ar, a, b, s, bt, row, col, k), PaddedA(ar, a, s, bt, row, k), PaddedB(ar, b, s, bt, k, col))
            == PadDot(ar, a, b, s, bt, row, col, k + 1)
  {
    if k < s.k {
      DotStep(ar, a, b, s, bt, row, col, k);
    }
    hide Dot;
    hide Flat;
  }

  // ----- phase 1: loading

  /** One thread's store into As, or into Bs. */
  datatype Load = LoadA(ty: nat, tx: nat) | LoadB(ty: nat, tx: nat)

  function Loads(): set<Load> {
    (set ty, tx | 0 <= ty < BLOCK && 0 <= tx < BLOCK :: LoadA(ty, tx))
    + (set ty, tx | 0 <= ty < BLOCK && 0 <= tx < BLOCK :: LoadB(ty, tx))
  }

  lemma AllLoads(l: Load)
    ensures l in Loads() <==> l.ty < BLOCK && l.tx < BLOCK
  {
    if l.ty < BLOCK && l.tx < BLOCK {
      assert l == LoadA(l.ty, l.tx) || l == LoadB(l.ty, l.tx);
    }
  }

  method LoadTile<F>(ar: Arith<F>, A: array<F>, B: array<F>, As: array2<F>, Bs: array2<F>, s: Dims, p: Tile, k0: nat)
    requires Launchable(s) && TileLaunched(s, p) && Sized(s, A[..], B[..]) && k0 < s.k
    requires As.Length0 == As.Length1 == Bs.Length0 == Bs.Length1 == BLOCK && As != Bs
    modifies As, Bs
    ensures forall ty: nat, tx: nat :: ty < BLOCK && tx < BLOCK ==>
            As[ty, tx] == PaddedA(ar, A[..], s, p.z, Row(p, ty), k0 + tx)
    ensures forall ty: nat, tx: nat :: ty < BLOCK && tx < BLOCK ==>
            Bs[ty, tx] == PaddedB(ar, B[..], s, p.z, k0 + ty, Col(p, tx))
  {
    hide Flat;
    hide RowMajor;
    hide Pitch;
    hide Launchable;
    hide Row;
    hide Col;
    hide Loads;
    hide Blocks;
    ghost var a, b := A[..], B[..];
    var todo := Loads();
    forall l: Load ensures l in todo <==> l.ty < BLOCK && l.tx < BLOCK {
      AllLoads(l);
    }
    while todo != {}
      invariant forall l :: l in todo ==> l.ty < BLOCK && l.tx < BLOCK
      invariant forall ty: nat, tx: nat :: ty < BLOCK && tx < BLOCK && LoadA(ty, tx) !in todo ==>
        As[ty, tx] == PaddedA(ar, a, s, p.z, Row(p, ty), k0 + tx)
      invariant forall ty: nat, tx: nat :: ty < BLOCK && tx < BLOCK && LoadB(ty, tx) !in todo ==>
        Bs[ty, tx] == PaddedB(ar, b, s, p.z, k0 + ty, Col(p, tx))
      decreases todo
    {
      var l :| l in todo;
      match l {
        case LoadA(ty, tx) => As[ty, tx] := ReadA(ar, A, s, p, k0, ty, tx);
        case LoadB(ty, tx) => Bs[ty, tx] := ReadB(ar, B, s, p, k0, ty, tx);
      }
      todo := todo - {l};
    }
  }

  method ReadA<F>(ar: Arith<F>, A: array<F>, s: Dims, p: Tile, k0: nat, ty: nat, tx: nat) returns (v: F)
    requires Launchable(s) && TileLaunched(s, p) && A.Length == s.batch * (s.m * s.k) && k0 < s.k && ty < BLOCK
             && tx < BLOCK
    ensures v == PaddedA(ar, A[..], s, p.z, Row(p, ty), k0 + tx)
  {
    hide Flat;
    hide Pitch;
    hide RowMajor;
    hide Launchable;
    hide Blocks;
    ThreadIndexFits(BLOCK, s, ThreadAt(p, ty, tx));
    var row: int32 := p.y * BLOCK + ty;
    if row < s.m && k0 + tx < s.k {
      AddressA(s, p.z, row, k0 + tx);
      var i: int32 := RowMajor(row, s.k, k0 + tx);
      v := A[Pitch(p.z, s.m, s.k) + i];
    } else {
      v := ar.zero;
    }
  }

  method ReadB<F>(ar: Arith<F>, B: array<F>, s: Dims, p: Tile, k0: nat, ty: nat, tx: nat) returns (v: F)
    requires Launchable(s) && TileLaunched(s, p) && B.Length == s.batch * (s.k * s.n) && k0 < s.k && ty < BLOCK
             && tx < BLOCK
    ensures v == PaddedB(ar, B[..], s, p.z, k0 + ty, Col(p, tx))
  {
    hide Flat;
    hide Pitch;
    hide RowMajor;
    hide Launchable;
    hide Blocks;
    ThreadIndexFits(BLOCK, s, ThreadAt(p, ty, tx));
    var col: int32 := p.x * BLOCK + tx;
    if k0 + ty < s.k && col < s.n {
      AddressB(s, p.z, k0 + ty, col);
      var i: int32 := RowMajor(k0 + ty, s.n, col);
      v := B[Pitch(p.z, s.k, s.n) + i];
    } else {
      v := ar.zero;
    }
  }

  // ----- phase 2: accumulating

  /** Accumulator of thread (ty, tx) after `k` steps along k; threads outside C are not constrained. */
  ghost predicate Accumulated<F>(ar: Arith<F>, a: seq<F>, b: seq<F>, s: Dims, p: Tile, acc: F, ty: nat, tx: nat, k: nat)
    requires Sized(s, a, b)
  {
    InBounds(s, p.z, Row(p, ty), Col(p, tx)) ==>
      acc == PadDot(ar, a, b, s, p.z, Row(p, ty), Col(p, tx), k)
  }

  lemma AccumulateStep<F>(ar: Arith<F>, a: seq<F>, b: seq<F>, s: Dims, p: Tile, acc: F,
                                x: F, y: F, ty: nat, tx: nat, k: nat)
    requires Sized(s, a, b) && p.z < s.batch
    requires Accumulated(ar, a, b, s, p, acc, ty, tx, k)
    requires x == PaddedA(ar, a, s, p.z, Row(p, ty), k) && y == PaddedB(ar, b, s, p.z, k, Col(p, tx))
    ensures Accumulated(ar, a, b, s, p, ar.mac(acc, x, y), ty, tx, k + 1)
  {
    if InBounds(s, p.z, Row(p, ty), Col(p, tx)) {
      PaddedStep(ar, a, b, s, p.z, Row(p, ty), Col(p, tx), k);
    }
    hide PaddedA;
    hide PaddedB;
    hide PadDot;
    hide Row;
    hide Col;
  }

  /** One multiply-add of one thread. */
  datatype Mac = Mac(ty: nat, tx: nat, kk: nat)

  function Macs(): set<Mac> {
    set ty, tx, kk | 0 <= ty < BLOCK && 0 <= tx < BLOCK && 0 <= kk < BLOCK :: Mac(ty, tx, kk)
  }

  lemma AllMacs(m: Mac)
    ensures m in Macs() <==> m.ty < BLOCK && m.tx < BLOCK && m.kk < BLOCK
  {
    if m.ty < BLOCK && m.tx < BLOCK && m.kk < BLOCK {
      assert m == Mac(m.ty, m.tx, m.kk);
    }
  }

  /** `next` gives each thread's own position, and `todo` what is left from there on. */
  ghost predicate Scheduled(todo: set<Mac>, next: map<(nat, nat), nat>) {
    && (forall ty: nat, tx: nat :: ty < BLOCK && tx < BLOCK ==> (ty, tx) in next && next[(ty, tx)] <= BLOCK)
    && (forall m: Mac :: m in todo <==> m.ty < BLOCK && m.tx < BLOCK && next[(m.ty, m.tx)] <= m.kk < BLOCK)
  }

  lemma ScheduleStarts(next: map<(nat, nat), nat>)
    requires forall ty: nat, tx: nat :: ty < BLOCK && tx < BLOCK ==> (ty, tx) in next && next[(ty, tx)] == 0
    ensures Scheduled(Macs(), next)
  {
    hide Macs;
    forall m: Mac ensures m in Macs() <==> m.ty < BLOCK && m.tx < BLOCK && m.kk < BLOCK {
      AllMacs(m);
    }
  }

  lemma ScheduleStep(todo: set<Mac>, next: map<(nat, nat), nat>, m: Mac)
    requires Scheduled(todo, next) && m in todo
    ensures m.ty < BLOCK && m.tx < BLOCK && (m.ty, m.tx) in next && next[(m.ty, m.tx)] < BLOCK
    ensures Mac(m.ty, m.tx, next[(m.ty, m.tx)]) in todo
    ensures Scheduled(todo - {Mac(m.ty, m.tx, next[(m.ty, m.tx)])}, next[(m.ty, m.tx) := next[(m.ty, m.tx)] + 1])
  {
  }

  lemma ScheduleEnds(todo: set<Mac>, next: map<(nat, nat), nat>, ty: nat, tx: nat)
    requires Scheduled(todo, next) && todo == {} && ty < BLOCK && tx < BLOCK
    ensures (ty, tx) in next && next[(ty, tx)] == BLOCK
  {
    assert Mac(ty, tx, BLOCK - 1) !in todo;
  }

  /** Whichever thread is scheduled next performs its own next multiply-add. */
  method AccumulateTile<F>(ar: Arith<F>, ghost a: seq<F>, ghost b: seq<F>,
                                 As: array2<F>, Bs: array2<F>, acc: array2<F>, ghost s: Dims, ghost p: Tile,
                                     ghost k0: nat)
    requires Sized(s, a, b) && p.z < s.batch
    requires As.Length0 == As.Length1 == Bs.Length0 == Bs.Length1 == acc.Length0 == acc.Length1 == BLOCK
    requires acc != As && acc != Bs
    requires forall ty: nat, tx: nat :: ty < BLOCK && tx < BLOCK ==>
             As[ty, tx] == PaddedA(ar, a, s, p.z, Row(p, ty), k0 + tx)
    requires forall ty: nat, tx: nat :: ty < BLOCK && tx < BLOCK ==>
             Bs[ty, tx] == PaddedB(ar, b, s, p.z, k0 + ty, Col(p, tx))
    requires forall ty: nat, tx: nat :: ty < BLOCK && tx < BLOCK ==>
             Accumulated(ar, a, b, s, p, acc[ty, tx], ty, tx, k0)
    modifies acc
    ensures forall ty: nat, tx: nat :: ty < BLOCK && tx < BLOCK ==>
            Accumulated(ar, a, b, s, p, acc[ty, tx], ty, tx, k0 + BLOCK)
  {
    hide Accumulated;
    hide PaddedA;
    hide PaddedB;
    hide Sized;
    hide Row;
    hide Col;
    hide Macs;
    hide Scheduled;
    hide BLOCK;
    var next: map<(nat, nat), nat> := map ty: nat, tx: nat | ty < BLOCK && tx < BLOCK :: (ty, tx) := 0;
    var todo := Macs();
    ScheduleStarts(next);
    while todo != {}
      modifies acc
      invariant Scheduled(todo, next)
      invariant forall ty: nat, tx: nat :: ty < BLOCK && tx < BLOCK ==>
        (ty, tx) in next && Accumulated(ar, a, b, s, p, acc[ty, tx], ty, tx, k0 + next[(ty, tx)])
      decreases todo
    {
      var m :| m in todo;
      ScheduleStep(todo, next, m);
      var ty, tx := m.ty, m.tx;
      var kk := next[(ty, tx)];
      var x, y, v := As[ty, kk], Bs[kk, tx], acc[ty, tx];
      AccumulateStep(ar, a, b, s, p, v, x, y, ty, tx, k0 + kk);
      acc[ty, tx] := ar.mac(v, x, y);
      next := next[(ty, tx) := kk + 1];
      todo := todo - {Mac(ty, tx, kk)};
    }
    forall ty: nat, tx: nat | ty < BLOCK && tx < BLOCK
      ensures Accumulated(ar, a, b, s, p, acc[ty, tx], ty, tx, k0 + BLOCK)
    {
      ScheduleEnds(todo, next, ty, tx);
    }
  }

  // ----- phase 3: storing

  function ThreadsOf(p: Tile): set<Thread> {
    set ty, tx | 0 <= ty < BLOCK && 0 <= tx < BLOCK :: ThreadAt(p, ty, tx)
  }

  lemma ThreadOfTile(p: Tile, t: Thread)
    ensures t in ThreadsOf(p) <==>
              t.blockX == p.x && t.blockY == p.y && t.blockZ == p.z && t.threadX < BLOCK && t.threadY < BLOCK
  {
    if t.blockX == p.x && t.blockY == p.y && t.blockZ == p.z && t.threadX < BLOCK && t.threadY < BLOCK {
      assert t == ThreadAt(p, t.threadY, t.threadX);
    }
  }

  method StoreThread<F>(ar: Arith<F>, ghost a: seq<F>, ghost b: seq<F>, C: Output<F>, v: F, s: Dims, p: Tile, ty: nat,
                        tx: nat)
    requires Launchable(s) && TileLaunched(s, p) && Sized(s, a, b) && ty < BLOCK && tx < BLOCK
    requires |C.initial| == s.batch * (s.m * s.n)
    requires Accumulated(ar, a, b, s, p, v, ty, tx, RoundedUp(s.k))
    modifies C
    ensures C.stores == old(C.stores) + StoresOf(ar, a, b, s, RoundedUp(s.k), BLOCK, ThreadAt(p, ty, tx))
  {
    hide Sized;
    hide Dot;
    hide Blocks;
    hide Flat;
    hide Pitch;
    hide RowMajor;
    hide Launchable;
    hide Replay;
    ThreadIndexFits(BLOCK, s, ThreadAt(p, ty, tx));
    var row: int32 := p.y * BLOCK + ty;
    var col: int32 := p.x * BLOCK + tx;
    if row < s.m && col < s.n {
      AddressC(s, p.z, row, col);
      var i: int32 := RowMajor(row, s.n, col);
      C.Store(Pitch(p.z, s.m, s.n) + i, v);
    }
  }

  /** The threads of a block store in any order, each its own element once. */
  method StoreTile<F>(ar: Arith<F>, ghost a: seq<F>, ghost b: seq<F>, C: Output<F>, acc: array2<F>, s: Dims, p: Tile,
                      ghost waiting: set<Thread>, ghost before: seq<Write<F>>)
    requires Launchable(s) && TileLaunched(s, p) && Sized(s, a, b) && |C.initial| == s.batch * (s.m * s.n)
    requires acc.Length0 == acc.Length1 == BLOCK
    requires forall ty: nat, tx: nat :: ty < BLOCK && tx < BLOCK ==>
             Accumulated(ar, a, b, s, p, acc[ty, tx], ty, tx, RoundedUp(s.k))
    requires ThreadsOf(p) <= waiting
    requires before <= C.stores && Progress(ar, a, b, s, RoundedUp(s.k), BLOCK, waiting, C.stores[|before|..])
    modifies C
    ensures before <= C.stores
    ensures Progress(ar, a, b, s, RoundedUp(s.k), BLOCK, waiting - ThreadsOf(p), C.stores[|before|..])
  {
    hide Accumulated;
    hide Progress;
    hide StoresOf;
    hide Launchable;
    hide Sized;
    hide Blocks;
    ghost var rest := waiting;
    var todo := ThreadsOf(p);
    while todo != {}
      invariant todo <= ThreadsOf(p) && todo <= rest && rest == waiting - (ThreadsOf(p) - todo)
      invariant before <= C.stores && Progress(ar, a, b, s, RoundedUp(s.k), BLOCK, rest, C.stores[|before|..])
      decreases todo
    {
      var t :| t in todo;
      ThreadOfTile(p, t);
      assert t == ThreadAt(p, t.threadY, t.threadX) && Launched(BLOCK, s, t);
      StoreSince(ar, a, b, s, RoundedUp(s.k), BLOCK, rest, before, C.stores, t);
      StoreThread(ar, a, b, C, acc[t.threadY, t.threadX], s, p, t.threadY, t.threadX);
      todo := todo - {t};
      rest := rest - {t};
    }
    assert rest == waiting - ThreadsOf(p);
  }

  /** The walk along k of one block. The shared tiles start with arbitrary contents. */
  method AccumulateTiles<F(0)>(ar: Arith<F>, A: array<F>, B: array<F>, s: Dims, p: Tile)
    returns (acc: array2<F>)
    requires Launchable(s) && TileLaunched(s, p) && Sized(s, A[..], B[..])
    ensures fresh(acc) && acc.Length0 == acc.Length1 == BLOCK
    ensures forall ty: nat, tx: nat :: ty < BLOCK && tx < BLOCK ==>
              Accumulated(ar, A[..], B[..], s, p, acc[ty, tx], ty, tx, RoundedUp(s.k))
  {
    ghost var a, b := A[..], B[..];
    hide Sized;
    hide PaddedA;
    hide PaddedB;
    hide Row;
    hide Col;
    hide Blocks;
    hide Accumulated;
    hide Launchable;
    var As, Bs := new F[BLOCK, BLOCK], new F[BLOCK, BLOCK];
    acc := new F[BLOCK, BLOCK]((ty, tx) => ar.zero);
    forall ty: nat, tx: nat | ty < BLOCK && tx < BLOCK ensures Accumulated(ar, a, b, s, p, acc[ty, tx], ty, tx, 0) {
      AccumulatesFromZero(ar, a, b, s, p, ty, tx);
    }
    StepsFit(s);
    var k0: int32 := 0;
    while k0 < s.k
      modifies As, Bs, acc
      invariant 0 <= k0 < s.k + BLOCK && k0 % BLOCK == 0 && fresh(As) && fresh(Bs) && fresh(acc)
      invariant forall ty: nat, tx: nat :: ty < BLOCK && tx < BLOCK ==>
                Accumulated(ar, a, b, s, p, acc[ty, tx], ty, tx, k0)
      decreases s.k - k0
    {
      LoadTile(ar, A, B, As, Bs, s, p, k0);
      AccumulateTile(ar, a, b, As, Bs, acc, s, p, k0);
      k0 := k0 + BLOCK;
    }
    StepsEnd(k0, s.k);
  }

  /** The walk ends at K rounded up. */
  lemma StepsEnd(k0: nat, k: nat)
    requires k0 % BLOCK == 0 && k <= k0 < k + BLOCK
    ensures k0 == RoundedUp(k)
  {
  }

  /** One block. */
  method TiledBlock<F(0)>(ar: Arith<F>, A: array<F>, B: array<F>, C: Output<F>,
                                s: Dims, p: Tile, ghost waiting: set<Thread>, ghost before: seq<Write<F>>)
    requires Launchable(s) && TileLaunched(s, p) && Sized(s, A[..], B[..])
    requires |C.initial| == s.batch * (s.m * s.n) && ThreadsOf(p) <= waiting
    requires before <= C.stores && Progress(ar, A[..], B[..], s, RoundedUp(s.k), BLOCK, waiting, C.stores[|before|..])
    modifies C
    ensures before <= C.stores
    ensures Progress(ar, A[..], B[..], s, RoundedUp(s.k), BLOCK, waiting - ThreadsOf(p), C.stores[|before|..])
  {
    assert BLOCK == 32;
    hide *;
    ghost var a, b := A[..], B[..];
    var acc := AccumulateTiles(ar, A, B, s, p);
    StoreTile(ar, a, b, C, acc, s, p, waiting, before);
    assert A[..] == a && B[..] == b;
  }

  /** The last step of k0 still fits an `int`. */
  lemma StepsFit(s: Dims)
    requires Launchable(s)
    ensures s.k - 1 + BLOCK <= INT_MAX
  {
  }

  lemma AccumulatesFromZero<F>(ar: Arith<F>, a: seq<F>, b: seq<F>, s: Dims, p: Tile, ty: nat, tx: nat)
    requires Sized(s, a, b)
    ensures Accumulated(ar, a, b, s, p, ar.zero, ty, tx, 0)
  {
  }

  function Tiles(s: Dims): set<Tile> {
    set x, y, z | 0 <= x < Blocks(s.n, BLOCK) && 0 <= y < Blocks(s.m, BLOCK) && 0 <= z < s.batch :: Tile(x, y, z)
  }

  lemma AllTiles(s: Dims, p: Tile)
    ensures p in Tiles(s) <==> TileLaunched(s, p)
  {
    hide Blocks;
    if TileLaunched(s, p) {
      assert p == Tile(p.x, p.y, p.z);
    }
  }

  /** Threads of the blocks in `todo`. */
  ghost predicate Waiting(s: Dims, todo: set<Tile>, waiting: set<Thread>) {
    forall t: Thread :: t in waiting <==>
      t.threadX < BLOCK && t.threadY < BLOCK && Tile(t.blockX, t.blockY, t.blockZ) in todo
  }

  lemma WaitingStarts(s: Dims)
    ensures Waiting(s, Tiles(s), Grid(BLOCK, s))
  {
    forall t: Thread
      ensures t in Grid(BLOCK, s) <==>
              t.threadX < BLOCK && t.threadY < BLOCK && Tile(t.blockX, t.blockY, t.blockZ) in Tiles(s)
    {
      GridIsLaunched(BLOCK, s, t);
      AllTiles(s, Tile(t.blockX, t.blockY, t.blockZ));
      hide Blocks;
    }
  }

  lemma WaitingStep(s: Dims, todo: set<Tile>, waiting: set<Thread>, p: Tile)
    requires Waiting(s, todo, waiting) && p in todo
    ensures ThreadsOf(p) <= waiting
    ensures Waiting(s, todo - {p}, waiting - ThreadsOf(p))
  {
    forall t: Thread
      ensures t in ThreadsOf(p) <==> Tile(t.blockX, t.blockY, t.blockZ) == p && t.threadX < BLOCK && t.threadY < BLOCK
    {
      ThreadOfTile(p, t);
    }
    hide ThreadsOf;
  }

  /** The launch: the blocks run in any order. For any dimensions and any arithmetic each element
      becomes the product's accumulator followed by the padded steps, and the stores made to C hit
      each element exactly once. */
  method TiledGemm<F(0)>(ar: Arith<F>, A: array<F>, B: array<F>, C: Output<F>, s: Dims)
    requires Launchable(s) && Sized(s, A[..], B[..])
    requires |C.initial| == s.batch * (s.m * s.n)
    modifies C
    ensures Leaves(ar, A[..], B[..], C.Contents(), s, RoundedUp(s.k))
    ensures StoredOnce(old(C.stores), C.stores, |C.initial|)
  {
    assert BLOCK == 32;
    assert C.Contents() == Replay(C.initial, C.stores);
    hide Sized;
    hide Launchable;
    hide TileLaunched;
    hide Grid;
    hide Tiles;
    hide ThreadsOf;
    hide Waiting;
    hide Progress;
    hide Replay;
    hide Leaves;
    hide RoundedUp;
    hide StoredOnce;
    ghost var a, b, before := A[..], B[..], C.stores;
    ghost var waiting := Grid(BLOCK, s);
    var todo := Tiles(s);
    ProgressStarts(ar, a, b, s, RoundedUp(s.k), BLOCK);
    WaitingStarts(s);
    while todo != {}
      invariant A[..] == a && B[..] == b
      invariant todo <= Tiles(s) && Waiting(s, todo, waiting)
      invariant before <= C.stores && Progress(ar, a, b, s, RoundedUp(s.k), BLOCK, waiting, C.stores[|before|..])
      decreases todo
    {
      var p :| p in todo;
      AllTiles(s, p);
      WaitingStep(s, todo, waiting, p);
      TiledBlock(ar, A, B, C, s, p, waiting, before);
      todo := todo - {p};
      waiting := waiting - ThreadsOf(p);
    }
    NoneWaiting(s, waiting);
    ProgressEnds(ar, a, b, C.initial, before, C.stores, s, RoundedUp(s.k), BLOCK);
  }

  lemma NoneWaiting(s: Dims, waiting: set<Thread>)
    requires Waiting(s, {}, waiting)
    ensures waiting == {}
  {
  }

  // ----- when that is the naive kernel's product

  /** The tiled kernel leaves the product exactly when no element is changed by its padded steps. */
  lemma TiledIsProductIff<F>(ar: Arith<F>, a: seq<F>, b: seq<F>, c: seq<F>, s: Dims)
    requires Sized(s, a, b) && |c| == s.batch * (s.m * s.n) && Leaves(ar, a, b, c, s, RoundedUp(s.k))
    ensures IsProduct(ar, a, b, c, s) <==>
              forall bt: nat, row: nat, col: nat :: InBounds(s, bt, row, col) ==>
                PadDot(ar, a, b, s, bt, row, col, RoundedUp(s.k)) == Dot(ar, a, b, s, bt, row, col, s.k)
  {
    hide Dot;
    hide PadDot;
    hide Element;
    hide RoundedUp;
    hide Sized;
    if IsProduct(ar, a, b, c, s) {
      forall bt: nat, row: nat, col: nat | InBounds(s, bt, row, col)
        ensures PadDot(ar, a, b, s, bt, row, col, RoundedUp(s.k)) == Dot(ar, a, b, s, bt, row, col, s.k)
      {
        assert Element(c, s, bt, row, col) == Dot(ar, a, b, s, bt, row, col, s.k);
      }
    }
  }

  /** With K a multiple of 32 there is no padded step. */
  lemma WholeTilesAreProduct<F>(ar: Arith<F>, a: seq<F>, b: seq<F>, c: seq<F>, s: Dims)
    requires Sized(s, a, b) && |c| == s.batch * (s.m * s.n) && Leaves(ar, a, b, c, s, RoundedUp(s.k))
    requires s.k % BLOCK == 0
    ensures IsProduct(ar, a, b, c, s)
  {
    StepsEnd(s.k, s.k);
    LeavesProduct(ar, a, b, c, s);
    hide *;
  }

  /** A step on zeros changes a value at most the first time. */
  ghost predicate Settles<F(!new)>(ar: Arith<F>) {
    forall acc :: Stable(ar, ar.mac(acc, ar.zero, ar.zero))
  }

  predicate Stable<F(==)>(ar: Arith<F>, acc: F) {
    ar.mac(acc, ar.zero, ar.zero) == acc
  }

  lemma {:induction false} PaddedOnce<F(!new)>(ar: Arith<F>, a: seq<F>, b: seq<F>, s: Dims, bt: nat, row: nat, col: nat,
                                               steps: nat)
    requires Settles(ar) && Sized(s, a, b) && InBounds(s, bt, row, col) && steps > s.k
    ensures PadDot(ar, a, b, s, bt, row, col, steps) == ar.mac(Dot(ar, a, b, s, bt, row, col, s.k), ar.zero, ar.zero)
    decreases steps
  {
    hide Dot;
    hide Sized;
    if steps > s.k + 1 {
      PaddedOnce(ar, a, b, s, bt, row, col, steps - 1);
      assert Stable(ar, ar.mac(Dot(ar, a, b, s, bt, row, col, s.k), ar.zero, ar.zero));
    }
  }

  lemma PadsUnless(k: nat)
    ensures if k % BLOCK == 0 then RoundedUp(k) == k else RoundedUp(k) > k
  {
  }

  /** For arithmetic that settles, fused or not: the tiled kernel leaves the product exactly when K is
      a multiple of 32 or every dot product is a value that adding zero leaves alone. */
  lemma SettlingProductIff<F(!new)>(ar: Arith<F>, a: seq<F>, b: seq<F>, c: seq<F>, s: Dims)
    requires Settles(ar)
    requires Sized(s, a, b) && |c| == s.batch * (s.m * s.n) && Leaves(ar, a, b, c, s, RoundedUp(s.k))
    ensures IsProduct(ar, a, b, c, s) <==>
              s.k % BLOCK == 0 || forall bt: nat, row: nat, col: nat :: InBounds(s, bt, row, col) ==>
                                    Stable(ar, Dot(ar, a, b, s, bt, row, col, s.k))
  {
    PadsUnless(s.k);
    hide Settles;
    hide Dot;
    hide RoundedUp;
    hide Sized;
    TiledIsProductIff(ar, a, b, c, s);
    hide Leaves;
    hide IsProduct;
    if s.k % BLOCK != 0 {
      forall bt: nat, row: nat, col: nat | InBounds(s, bt, row, col)
        ensures PadDot(ar, a, b, s, bt, row, col, RoundedUp(s.k)) == Dot(ar, a, b, s, bt, row, col, s.k)
                <==> Stable(ar, Dot(ar, a, b, s, bt, row, col, s.k))
      {
        PaddedOnce(ar, a, b, s, bt, row, col, RoundedUp(s.k));
      }
      hide PadDot;
      hide Stable;
    } else {
      forall bt: nat, row: nat, col: nat | InBounds(s, bt, row, col)
        ensures PadDot(ar, a, b, s, bt, row, col, RoundedUp(s.k)) == Dot(ar, a, b, s, bt, row, col, s.k)
      {
      }
    }
  }

  lemma {:induction false} LawfulPadding<F(!new)>(ar: Arith<F>, regular: F -> bool, a: seq<F>, b: seq<F>, s: Dims,
                                                  bt: nat, row: nat, col: nat, steps: nat)
    requires Lawful(ar, regular) && Sized(s, a, b) && InBounds(s, bt, row, col) && steps >= s.k
    ensures PadDot(ar, a, b, s, bt, row, col, steps) == Dot(ar, a, b, s, bt, row, col, s.k)
    decreases steps
  {
    hide Dot;
    hide Sized;
    if steps > s.k {
      LawfulPadding(ar, regular, a, b, s, bt, row, col, steps - 1);
      DotIsRegular(ar, regular, a, b, s, bt, row, col, s.k);
    }
  }

  /** For lawful arithmetic the tiled kernel always leaves the naive kernel's product. */
  lemma LawfulIsProduct<F(!new)>(ar: Arith<F>, regular: F -> bool, a: seq<F>, b: seq<F>, c: seq<F>, s: Dims)
    requires Lawful(ar, regular)
    requires Sized(s, a, b) && |c| == s.batch * (s.m * s.n) && Leaves(ar, a, b, c, s, RoundedUp(s.k))
    ensures IsProduct(ar, a, b, c, s)
  {
    PadsUnless(s.k);
    hide *;
    TiledIsProductIff(ar, a, b, c, s);
    forall bt: nat, row: nat, col: nat | InBounds(s, bt, row, col)
      ensures PadDot(ar, a, b, s, bt, row, col, RoundedUp(s.k)) == Dot(ar, a, b, s, bt, row, col, s.k)
    {
      LawfulPadding(ar, regular, a, b, s, bt, row, col, RoundedUp(s.k));
    }
  }
}
