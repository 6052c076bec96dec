/** The batched matrix product C[b] = A[b] * B[b], row-major, as computed by the naive kernel and by
    the tiled kernel. Element arithmetic is abstract: both kernels only ever fold a multiply-add in
    ascending k, so no associativity is needed. */
module Gemm {
  import opened Jobs

  const INT_MAX: int := 0x7FFF_FFFF

  /** The element type's zero and its `acc += a * b`, with whatever rounding it has. */
  datatype Arith<!F> = Arith(zero: F, mac: (F, F, F) -> F)

  /** Adding the product of two zeros leaves an accumulator alone. This is asked only of `regular`
      values, which zero is and which accumulation keeps. Binary32 with a separate multiply and add
      meets it with all values but -0 (section 6.3 of IEEE 754-2019); a fused multiply-add does not,
      because it can underflow to -0. */
  ghost predicate Lawful<F(!new)>(ar: Arith<F>, regular: F -> bool) {
    && regular(ar.zero)
    && (forall acc, a, b :: regular(acc) ==> regular(ar.mac(acc, a, b)))
    && (forall acc :: regular(acc) ==> ar.mac(acc, ar.zero, ar.zero) == acc)
  }

  datatype Dims = Dims(m: nat, n: nat, k: nat, batch: nat)

  /** The kernels index one matrix with `int` and round dimensions up to a tile with `int`. */
  predicate Launchable(s: Dims) {
    && s.m <= INT_MAX - 31 && s.n <= INT_MAX - 31 && s.k <= INT_MAX - 31 && s.batch <= INT_MAX
    && s.m * s.k <= INT_MAX && s.k * s.n <= INT_MAX && s.m * s.n <= INT_MAX
  }

  // ----- addresses

  /** `r * cols + c`, the kernels' `int` arithmetic inside one matrix. */
  function RowMajor(r: nat, cols: nat, c: nat): nat {
    r * cols + c
  }

  /** Index of element (r, c) of matrix b in a batch of row-major `rows` by `cols` matrices. */
  function Flat(b: nat, r: nat, c: nat, rows: nat, cols: nat): nat {
    b * (rows * cols) + RowMajor(r, cols, c)
  }

  /** Offset of matrix b, in `size_t` as the kernels compute it. */
  function Pitch(b: nat, rows: nat, cols: nat): size_t {
    ToSize(b * ToSize(rows * cols))
  }

  lemma MulMonotone(x: nat, y: nat, z: nat)
    requires x <= y
    ensures x * z <= y * z
  {
    assert y * z - x * z == (y - x) * z;
  }

  lemma RowBound(r: nat, c: nat, rows: nat, cols: nat)
    requires r < rows && c < cols
    ensures r * cols + c < rows * cols
  {
    MulMonotone(r + 1, rows, cols);
    assert (r + 1) * cols == r * cols + cols;
  }

  lemma FlatBound(b: nat, r: nat, c: nat, batch: nat, rows: nat, cols: nat)
    requires b < batch && r < rows && c < cols
    ensures Flat(b, r, c, rows, cols) < batch * (rows * cols)
  {
    RowBound(r, c, rows, cols);
    RowBound(b, r * cols + c, batch, rows * cols);
  }

  /** The `int` part of the address cannot overflow, the `size_t` part cannot wrap, and together
      they are the element's index. */
  lemma Address(b: nat, r: nat, c: nat, batch: nat, rows: nat, cols: nat)
    requires b < batch <= INT_MAX && r < rows && c < cols && rows * cols <= INT_MAX
    ensures RowMajor(r, cols, c) <= INT_MAX
    ensures Pitch(b, rows, cols) + RowMajor(r, cols, c) == Flat(b, r, c, rows, cols) < batch * (rows * cols)
  {
    RowBound(r, c, rows, cols);
    FlatBound(b, r, c, batch, rows, cols);
    MulMonotone(b, INT_MAX, rows * cols);
    assert ToSize(rows * cols) == rows * cols;
    assert 0 <= b * (rows * cols) < SIZE_VALUES;
  }

  lemma QuotientOrder(q: nat, r: nat, q': nat, r': nat, d: nat)
    requires q < q' && r < d
    ensures q * d + r < q' * d + r'
  {
    MulMonotone(q + 1, q', d);
    assert (q + 1) * d == q * d + d;
  }

  lemma SameQuotient(q: nat, r: nat, q': nat, r': nat, d: nat)
    requires r < d && r' < d && q * d + r == q' * d + r'
    ensures q == q' && r == r'
  {
    if q < q' {
      QuotientOrder(q, r, q', r', d);
    } else if q' < q {
      QuotientOrder(q', r', q, r, d);
    }
  }

  lemma QuotientBound(i: nat, n: nat, d: nat)
    requires d > 0 && i < n * d
    ensures 0 <= i / d < n && 0 <= i % d < d && i == (i / d) * d + i % d
  {
    var q := i / d;
    assert q >= 0 && i == q * d + i % d;
    if n < q {
      QuotientOrder(n, 0, q, i % d, d);
    }
  }

  lemma FlatInjective(b: nat, r: nat, c: nat, b': nat, r': nat, c': nat, rows: nat, cols: nat)
    requires r < rows && c < cols && r' < rows && c' < cols
    requires Flat(b, r, c, rows, cols) == Flat(b', r', c', rows, cols)
    ensures b == b' && r == r' && c == c'
  {
    RowBound(r, c, rows, cols);
    RowBound(r', c', rows, cols);
    SameQuotient(b, r * cols + c, b', r' * cols + c', rows * cols);
    SameQuotient(r, c, r', c', cols);
  }

  /** Every index of the buffer is some element. */
  lemma FlatSurjective(i: nat, batch: nat, rows: nat, cols: nat) returns (b: nat, r: nat, c: nat)
    requires i < batch * (rows * cols)
    ensures b < batch && r < rows && c < cols && i == Flat(b, r, c, rows, cols)
  {
    var size := rows * cols;
    assert size > 0 && cols > 0;
    b, r, c := i / size, (i % size) / cols, (i % size) % cols;
    QuotientBound(i, batch, size);
    QuotientBound(i % size, rows, cols);
  }

  // ----- the product

  ghost predicate Sized<F>(s: Dims, a: seq<F>, b: seq<F>) {
    |a| == s.batch * (s.m * s.k) && |b| == s.batch * (s.k * s.n)
  }

  predicate InBounds(s: Dims, bt: nat, row: nat, col: nat) {
    bt < s.batch && row < s.m && col < s.n
  }

  /** The first `k` products of row `row` of A[bt] and column `col` of B[bt], accumulated in order. */
  ghost function Dot<F>(ar: Arith<F>, a: seq<F>, b: seq<F>, s: Dims, bt: nat, row: nat, col: nat, k: nat): F
    requires Sized(s, a, b) && InBounds(s, bt, row, col) && k <= s.k
  {
    if k == 0 then ar.zero else
      FlatBound(bt, row, k - 1, s.batch, s.m, s.k);
      FlatBound(bt, k - 1, col, s.batch, s.k, s.n);
      ar.mac(Dot(ar, a, b, s, bt, row, col, k - 1),
             a[Flat(bt, row, k - 1, s.m, s.k)], b[Flat(bt, k - 1, col, s.k, s.n)])
  }

  /** The accumulator after `steps` multiply-adds, whose operands are zero past the end of k. */
  ghost function PadDot<F>(ar: Arith<F>, a: seq<F>, b: seq<F>, s: Dims, bt: nat, row: nat, col: nat, steps: nat): F
    requires Sized(s, a, b) && InBounds(s, bt, row, col)
  {
    if steps <= s.k then Dot(ar, a, b, s, bt, row, col, steps)
    else ar.mac(PadDot(ar, a, b, s, bt, row, col, steps - 1), ar.zero, ar.zero)
  }

  lemma DotStart<F>(ar: Arith<F>, a: seq<F>, b: seq<F>, s: Dims, bt: nat, row: nat, col: nat)
    requires Sized(s, a, b) && InBounds(s, bt, row, col)
    ensures Dot(ar, a, b, s, bt, row, col, 0) == ar.zero
  {
  }

  lemma DotStep<F>(ar: Arith<F>, a: seq<F>, b: seq<F>, s: Dims, bt: nat, row: nat, col: nat, k: nat)
    requires Sized(s, a, b) && InBounds(s, bt, row, col) && k < s.k
    ensures Flat(bt, row, k, s.m, s.k) < |a| && Flat(bt, k, col, s.k, s.n) < |b|
    ensures Dot(ar, a, b, s, bt, row, col, k + 1)
            == ar.mac(Dot(ar, a, b, s, bt, row, col, k), a[Flat(bt, row, k, s.m, s.k)], b[Flat(bt, k, col, s.k, s.n)])
  {
    FlatBound(bt, row, k, s.batch, s.m, s.k);
    FlatBound(bt, k, col, s.batch, s.k, s.n);
    hide Flat;
  }

  lemma {:induction false} DotIsRegular<F(!new)>(ar: Arith<F>, regular: F -> bool, a: seq<F>, b: seq<F>, s: Dims,
                                                  bt: nat, row: nat, col: nat, k: nat)
    requires Lawful(ar, regular) && Sized(s, a, b) && InBounds(s, bt, row, col) && k <= s.k
    ensures regular(Dot(ar, a, b, s, bt, row, col, k))
  {
    if k > 0 {
      DotIsRegular(ar, regular, a, b, s, bt, row, col, k - 1);
      DotStep(ar, a, b, s, bt, row, col, k - 1);
      MacIsRegular(ar, regular, Dot(ar, a, b, s, bt, row, col, k - 1),
                   a[Flat(bt, row, k - 1, s.m, s.k)], b[Flat(bt, k - 1, col, s.k, s.n)]);
    }
    hide *;
  }

  lemma MacIsRegular<F(!new)>(ar: Arith<F>, regular: F -> bool, acc: F, x: F, y: F)
    requires Lawful(ar, regular) && regular(acc)
    ensures regular(ar.mac(acc, x, y))
  {
  }

  lemma AddressA(s: Dims, bt: nat, row: nat, k: nat)
    requires Launchable(s) && bt < s.batch && row < s.m && k < s.k
    ensures RowMajor(row, s.k, k) <= INT_MAX
    ensures Pitch(bt, s.m, s.k) + RowMajor(row, s.k, k) == Flat(bt, row, k, s.m, s.k) < s.batch * (s.m * s.k)
  {
    hide Flat;
    hide Pitch;
    hide RowMajor;
    Address(bt, row, k, s.batch, s.m, s.k);
  }

  lemma AddressB(s: Dims, bt: nat, k: nat, col: nat)
    requires Launchable(s) && bt < s.batch && k < s.k && col < s.n
    ensures RowMajor(k, s.n, col) <= INT_MAX
    ensures Pitch(bt, s.k, s.n) + RowMajor(k, s.n, col) == Flat(bt, k, col, s.k, s.n) < s.batch * (s.k * s.n)
  {
    hide Flat;
    hide Pitch;
    hide RowMajor;
    Address(bt, k, col, s.batch, s.k, s.n);
  }

  lemma AddressC(s: Dims, bt: nat, row: nat, col: nat)
    requires Launchable(s) && InBounds(s, bt, row, col)
    ensures RowMajor(row, s.n, col) <= INT_MAX
    ensures Pitch(bt, s.m, s.n) + RowMajor(row, s.n, col) == Flat(bt, row, col, s.m, s.n) < s.batch * (s.m * s.n)
  {
    hide Flat;
    hide Pitch;
    hide RowMajor;
    Address(bt, row, col, s.batch, s.m, s.n);
  }

  ghost function Element<F>(c: seq<F>, s: Dims, bt: nat, row: nat, col: nat): F
    requires |c| == s.batch * (s.m * s.n) && InBounds(s, bt, row, col)
  {
    FlatBound(bt, row, col, s.batch, s.m, s.n);
    c[Flat(bt, row, col, s.m, s.n)]
  }

  /** `c` holds the whole batch of products. */
  ghost predicate IsProduct<F>(ar: Arith<F>, a: seq<F>, b: seq<F>, c: seq<F>, s: Dims)
    requires Sized(s, a, b) && |c| == s.batch * (s.m * s.n)
  {
    forall bt: nat, row: nat, col: nat :: InBounds(s, bt, row, col) ==>
      Element(c, s, bt, row, col) == Dot(ar, a, b, s, bt, row, col, s.k)
  }

  /** `c` holds every element's accumulator after `steps` steps. */
  ghost predicate Leaves<F>(ar: Arith<F>, a: seq<F>, b: seq<F>, c: seq<F>, s: Dims, steps: nat)
    requires Sized(s, a, b) && |c| == s.batch * (s.m * s.n)
  {
    forall bt: nat, row: nat, col: nat :: InBounds(s, bt, row, col) ==>
      Element(c, s, bt, row, col) == PadDot(ar, a, b, s, bt, row, col, steps)
  }

  /** After exactly K steps that is the product. */
  lemma LeavesProduct<F>(ar: Arith<F>, a: seq<F>, b: seq<F>, c: seq<F>, s: Dims)
    requires Sized(s, a, b) && |c| == s.batch * (s.m * s.n)
    ensures Leaves(ar, a, b, c, s, s.k) <==> IsProduct(ar, a, b, c, s)
  {
    hide Dot;
    hide Element;
    forall bt: nat, row: nat, col: nat | InBounds(s, bt, row, col)
      ensures PadDot(ar, a, b, s, bt, row, col, s.k) == Dot(ar, a, b, s, bt, row, col, s.k)
    {
    }
    hide PadDot;
  }

  /** The product determines the whole buffer: two kernels that both deliver it leave C identical. */
  lemma ProductIsUnique<F>(ar: Arith<F>, a: seq<F>, b: seq<F>, c: seq<F>, c': seq<F>, s: Dims)
    requires Sized(s, a, b) && |c| == |c'| == s.batch * (s.m * s.n)
    requires IsProduct(ar, a, b, c, s) && IsProduct(ar, a, b, c', s)
    ensures c == c'
  {
    hide Dot;
    hide Flat;
    forall i: nat | i < |c| ensures c[i] == c'[i] {
      var bt, row, col := FlatSurjective(i, s.batch, s.m, s.n);
      assert InBounds(s, bt, row, col);
      assert Element(c, s, bt, row, col) == Element(c', s, bt, row, col);
    }
  }

  // ----- the launch grid

  datatype Thread = Thread(blockX: nat, blockY: nat, blockZ: nat, threadX: nat, threadY: nat)

  function Blocks(n: nat, tile: nat): nat
    requires tile == 16 || tile == 32
  {
    (n + tile - 1) / tile
  }

  function RowOf(tile: nat, t: Thread): nat { t.blockY * tile + t.threadY }

  function ColOf(tile: nat, t: Thread): nat { t.blockX * tile + t.threadX }

  predicate Launched(tile: nat, s: Dims, t: Thread)
    requires tile == 16 || tile == 32
  {
    && t.blockX < Blocks(s.n, tile) && t.blockY < Blocks(s.m, tile) && t.blockZ < s.batch
    && t.threadX < tile && t.threadY < tile
  }

  function Owner(tile: nat, bt: nat, row: nat, col: nat): Thread
    requires tile == 16 || tile == 32
  {
    Thread(col / tile, row / tile, bt, col % tile, row % tile)
  }

  lemma CoverOne(tile: nat, n: nat, x: nat, q: nat, r: nat)
    requires (tile == 16 || tile == 32) && x < n <= INT_MAX - 31
    ensures x / tile < Blocks(n, tile) && x % tile < tile
    ensures r < tile ==> ((q * tile + r == x) <==> (q == x / tile && r == x % tile))
    ensures q < Blocks(n, tile) && r < tile ==> q * tile + r <= INT_MAX
  {
    if tile == 16 {
    } else {
    }
  }

  /** The grid covers C: every element is computed by exactly one launched thread, and the rows and
      columns of all launched threads fit an `int`. */
  lemma GridCoversOnce(tile: nat, s: Dims, bt: nat, row: nat, col: nat, t: Thread)
    requires (tile == 16 || tile == 32) && Launchable(s) && InBounds(s, bt, row, col)
    ensures Launched(tile, s, Owner(tile, bt, row, col))
    ensures t.threadX < tile && t.threadY < tile ==>
              ((t.blockZ == bt && RowOf(tile, t) == row && ColOf(tile, t) == col) <==> t == Owner(tile, bt, row, col))
    ensures Launched(tile, s, t) ==> RowOf(tile, t) <= INT_MAX && ColOf(tile, t) <= INT_MAX
  {
    CoverOne(tile, s.m, row, t.blockY, t.threadY);
    CoverOne(tile, s.n, col, t.blockX, t.threadX);
    hide Blocks;
  }

  lemma ThreadIndexFits(tile: nat, s: Dims, t: Thread)
    requires (tile == 16 || tile == 32) && Launchable(s) && Launched(tile, s, t)
    ensures t.blockX * tile + t.threadX == ColOf(tile, t) <= INT_MAX
    ensures t.blockY * tile + t.threadY == RowOf(tile, t) <= INT_MAX
  {
    CoverOne(tile, s.m, 0, t.blockY, t.threadY);
    CoverOne(tile, s.n, 0, t.blockX, t.threadX);
    hide Blocks;
  }

  /** All threads of the launch. */
  function Grid(tile: nat, s: Dims): set<Thread>
    requires tile == 16 || tile == 32
  {
    set x, y, z, tx, ty | 0 <= x < Blocks(s.n, tile) && 0 <= y < Blocks(s.m, tile) && 0 <= z < s.batch
                          && 0 <= tx < tile && 0 <= ty < tile :: Thread(x, y, z, tx, ty)
  }

  lemma GridIsLaunched(tile: nat, s: Dims, t: Thread)
    requires tile == 16 || tile == 32
    ensures t in Grid(tile, s) <==> Launched(tile, s, t)
  {
    hide Blocks;
    if Launched(tile, s, t) {
      assert t == Thread(t.blockX, t.blockY, t.blockZ, t.threadX, t.threadY);
    }
  }

  // ----- the output

  datatype Write<F> = Write(index: nat, value: F)

  /** Contents after a history of stores. */
  function Replay<F>(initial: seq<F>, stores: seq<Write<F>>): (contents: seq<F>)
    ensures |contents| == |initial|
  {
    if stores == [] then initial
    else
      var before, last := Replay(initial, stores[..|stores| - 1]), stores[|stores| - 1];
      if last.index < |initial| then before[last.index := last.value] else before
  }

  /** The memory a launch writes. It is the history of the stores made to it, so nothing can change
      its contents without being counted. */
  class Output<F> {
    const initial: seq<F>
    var stores: seq<Write<F>>

    constructor (initial: seq<F>)
      ensures this.initial == initial && Contents() == initial
    {
      this.initial := initial;
      stores := [];
    }

    function Contents(): seq<F>
      reads this
    {
      Replay(initial, stores)
    }

    method Store(i: nat, v: F)
      requires i < |initial|
      modifies this
      ensures stores == old(stores) + [Write(i, v)]
      ensures Contents() == old(Contents())[i := v]
    {
      stores := stores + [Write(i, v)];
      assert stores[..|stores| - 1] == old(stores);
    }
  }

  /** Number of stores to index `i`. */
  function Count<F>(stores: seq<Write<F>>, i: nat): nat {
    if stores == [] then 0
    else Count(stores[..|stores| - 1], i) + (if stores[|stores| - 1].index == i then 1 else 0)
  }

  lemma CountSnoc<F>(stores: seq<Write<F>>, w: Write<F>, i: nat)
    ensures Count(stores + [w], i) == Count(stores, i) + (if w.index == i then 1 else 0)
  {
    assert (stores + [w])[..|stores|] == stores;
  }

  /** If something was stored at `i` after `before`, and nothing but `v`, then `i` holds `v`. */
  lemma {:induction false} LastStoreCounts<F>(initial: seq<F>, before: seq<Write<F>>, log: seq<Write<F>>, i: nat, v: F)
    requires i < |initial| && Count(log, i) > 0
    requires forall k :: 0 <= k < |log| && log[k].index == i ==> log[k].value == v
    ensures Replay(initial, before + log)[i] == v
  {
    if log != [] {
      var front, last := log[..|log| - 1], log[|log| - 1];
      assert (before + log)[..|before + log| - 1] == before + front;
      if last.index != i {
        LastStoreCounts(initial, before, front, i, v);
      }
    }
  }

  // ----- partial results

  /** The stores one thread makes: its element's accumulator after `steps` steps, if it has an element. */
  ghost function StoresOf<F>(ar: Arith<F>, a: seq<F>, b: seq<F>, s: Dims, steps: nat, tile: nat,
                             t: Thread): seq<Write<F>>
    requires Sized(s, a, b)
  {
    if InBounds(s, t.blockZ, RowOf(tile, t), ColOf(tile, t)) then
      [Write(Flat(t.blockZ, RowOf(tile, t), ColOf(tile, t), s.m, s.n),
             PadDot(ar, a, b, s, t.blockZ, RowOf(tile, t), ColOf(tile, t), steps))]
    else []
  }

  /** The store puts an element's accumulator at the element's index. */
  ghost predicate IsResult<F>(ar: Arith<F>, a: seq<F>, b: seq<F>, s: Dims, steps: nat, w: Write<F>)
    requires Sized(s, a, b)
  {
    exists bt: nat, row: nat, col: nat ::
      InBounds(s, bt, row, col) && w == Write(Flat(bt, row, col, s.m, s.n), PadDot(ar, a, b, s, bt, row, col, steps))
  }

  /** One element: stored once if its thread is done, not yet stored otherwise. */
  predicate Settled<F>(s: Dims, tile: nat, todo: set<Thread>, log: seq<Write<F>>, bt: nat, row: nat, col: nat)
    requires tile == 16 || tile == 32
  {
    Count(log, Flat(bt, row, col, s.m, s.n)) == if Owner(tile, bt, row, col) in todo then 0 else 1
  }

  /** The stores made so far while the threads of `todo` have not stored yet. */
  ghost predicate Progress<F>(ar: Arith<F>, a: seq<F>, b: seq<F>, s: Dims, steps: nat, tile: nat, todo: set<Thread>,
                              log: seq<Write<F>>)
    requires tile == 16 || tile == 32
    requires Sized(s, a, b)
  {
    && (forall bt: nat, row: nat, col: nat :: InBounds(s, bt, row, col) ==> Settled(s, tile, todo, log, bt, row, col))
    && (forall k :: 0 <= k < |log| ==> IsResult(ar, a, b, s, steps, log[k]))
  }

  /** A thread writes the address of an element only if it is the element's own thread. */
  lemma SameElement(tile: nat, s: Dims, bt: nat, row: nat, col: nat, t: Thread)
    requires (tile == 16 || tile == 32) && Launchable(s) && InBounds(s, bt, row, col) && Launched(tile, s, t)
    ensures t == Owner(tile, bt, row, col) ==> t.blockZ == bt && RowOf(tile, t) == row && ColOf(tile, t) == col
    ensures t != Owner(tile, bt, row, col) && InBounds(s, t.blockZ, RowOf(tile, t), ColOf(tile, t)) ==>
              Flat(bt, row, col, s.m, s.n) != Flat(t.blockZ, RowOf(tile, t), ColOf(tile, t), s.m, s.n)
  {
    GridCoversOnce(tile, s, bt, row, col, t);
    var r, q := RowOf(tile, t), ColOf(tile, t);
    hide Launchable;
    hide Owner;
    hide Flat;
    if t != Owner(tile, bt, row, col) && InBounds(s, t.blockZ, r, q)
       && Flat(bt, row, col, s.m, s.n) == Flat(t.blockZ, r, q, s.m, s.n) {
      FlatInjective(bt, row, col, t.blockZ, r, q, s.m, s.n);
    }
  }

  lemma SettledByStore<F>(ar: Arith<F>, a: seq<F>, b: seq<F>, s: Dims, steps: nat, tile: nat, todo: set<Thread>,
                          log: seq<Write<F>>, t: Thread, bt: nat, row: nat, col: nat)
    requires (tile == 16 || tile == 32) && Launchable(s)
    requires Sized(s, a, b) && InBounds(s, bt, row, col)
    requires t in todo && Launched(tile, s, t)
    requires Settled(s, tile, todo, log, bt, row, col)
    ensures Settled(s, tile, todo - {t}, log + StoresOf(ar, a, b, s, steps, tile, t), bt, row, col)
  {
    hide Launched;
    hide Owner;
    hide RowOf;
    hide ColOf;
    hide Flat;
    hide PadDot;
    hide Sized;
    hide Count;
    SameElement(tile, s, bt, row, col, t);
    var x := StoresOf(ar, a, b, s, steps, tile, t);
    if x == [] {
      assert log + x == log;
    } else {
      CountSnoc(log, x[0], Flat(bt, row, col, s.m, s.n));
      assert x == [x[0]];
    }
  }

  lemma StoresAreResults<F>(ar: Arith<F>, a: seq<F>, b: seq<F>, s: Dims, steps: nat, tile: nat, t: Thread)
    requires Sized(s, a, b)
    ensures forall k :: 0 <= k < |StoresOf(ar, a, b, s, steps, tile, t)| ==>
              IsResult(ar, a, b, s, steps, StoresOf(ar, a, b, s, steps, tile, t)[k])
  {
    hide PadDot;
    hide Flat;
    hide Sized;
    hide RowOf;
    hide ColOf;
    assert InBounds(s, t.blockZ, RowOf(tile, t), ColOf(tile, t)) ==>
        IsResult(ar, a, b, s, steps, Write(Flat(t.blockZ, RowOf(tile, t), ColOf(tile, t), s.m, s.n),
                                    PadDot(ar, a, b, s, t.blockZ, RowOf(tile, t), ColOf(tile, t), steps)));
  }

  /** A store by any waiting thread keeps every other element. */
  lemma StoreKeepsProgress<F>(ar: Arith<F>, a: seq<F>, b: seq<F>, s: Dims, steps: nat, tile: nat, todo: set<Thread>,
                              log: seq<Write<F>>, t: Thread)
    requires (tile == 16 || tile == 32) && Launchable(s)
    requires Sized(s, a, b) && t in todo && Launched(tile, s, t)
    requires Progress(ar, a, b, s, steps, tile, todo, log)
    ensures Progress(ar, a, b, s, steps, tile, todo - {t}, log + StoresOf(ar, a, b, s, steps, tile, t))
  {
    StoresAreResults(ar, a, b, s, steps, tile, t);
    hide Settled;
    hide IsResult;
    hide StoresOf;
    hide Launched;
    hide Launchable;
    hide Sized;
    hide InBounds;
    forall bt: nat, row: nat, col: nat | InBounds(s, bt, row, col)
      ensures Settled(s, tile, todo - {t}, log + StoresOf(ar, a, b, s, steps, tile, t), bt, row, col)
    {
      SettledByStore(ar, a, b, s, steps, tile, todo, log, t, bt, row, col);
    }
  }

  lemma ProgressStarts<F>(ar: Arith<F>, a: seq<F>, b: seq<F>, s: Dims, steps: nat, tile: nat)
    requires (tile == 16 || tile == 32) && Launchable(s)
    requires Sized(s, a, b)
    ensures Progress(ar, a, b, s, steps, tile, Grid(tile, s), [])
  {
    forall bt: nat, row: nat, col: nat | InBounds(s, bt, row, col)
      ensures Settled<F>(s, tile, Grid(tile, s), [], bt, row, col)
    {
      GridCoversOnce(tile, s, bt, row, col, Owner(tile, bt, row, col));
      GridIsLaunched(tile, s, Owner(tile, bt, row, col));
    }
  }

  /** Every index of C received exactly one of the stores that follow `before`. */
  ghost predicate StoredOnce<F>(before: seq<Write<F>>, stores: seq<Write<F>>, size: nat) {
    before <= stores && forall i: nat :: i < size ==> Count(stores[|before|..], i) == 1
  }

  lemma ElementEnds<F>(ar: Arith<F>, a: seq<F>, b: seq<F>, initial: seq<F>, before: seq<Write<F>>, log: seq<Write<F>>,
                       s: Dims, steps: nat, bt: nat, row: nat, col: nat)
    requires Sized(s, a, b) && |initial| == s.batch * (s.m * s.n) && InBounds(s, bt, row, col)
    requires Count(log, Flat(bt, row, col, s.m, s.n)) == 1
    requires forall k :: 0 <= k < |log| ==> IsResult(ar, a, b, s, steps, log[k])
    ensures Element(Replay(initial, before + log), s, bt, row, col) == PadDot(ar, a, b, s, bt, row, col, steps)
  {
    hide PadDot;
    hide Flat;
    hide Sized;
    hide Replay;
    hide Count;
    FlatBound(bt, row, col, s.batch, s.m, s.n);
    var at, v := Flat(bt, row, col, s.m, s.n), PadDot(ar, a, b, s, bt, row, col, steps);
    forall k | 0 <= k < |log| && log[k].index == at ensures log[k].value == v {
      assert IsResult(ar, a, b, s, steps, log[k]);
      var bt': nat, row': nat, col': nat :| InBounds(s, bt', row', col')
        && log[k] == Write(Flat(bt', row', col', s.m, s.n), PadDot(ar, a, b, s, bt', row', col', steps));
      FlatInjective(bt, row, col, bt', row', col', s.m, s.n);
    }
    LastStoreCounts(initial, before, log, at, v);
  }

  /** When no thread is left, C holds every element's `PadDot` and each was stored exactly once. */
  lemma ProgressEnds<F>(ar: Arith<F>, a: seq<F>, b: seq<F>, initial: seq<F>, before: seq<Write<F>>,
                        stores: seq<Write<F>>, s: Dims, steps: nat, tile: nat)
    requires tile == 16 || tile == 32
    requires Sized(s, a, b) && |initial| == s.batch * (s.m * s.n) && before <= stores
    requires Progress(ar, a, b, s, steps, tile, {}, stores[|before|..])
    ensures Leaves(ar, a, b, Replay(initial, stores), s, steps)
    ensures StoredOnce(before, stores, |initial|)
  {
    hide PadDot;
    hide Flat;
    hide Sized;
    hide Count;
    hide Replay;
    hide IsResult;
    hide Element;
    var log := stores[|before|..];
    assert before + log == stores;
    forall bt: nat, row: nat, col: nat | InBounds(s, bt, row, col)
      ensures Element(Replay(initial, stores), s, bt, row, col) == PadDot(ar, a, b, s, bt, row, col, steps)
    {
      assert Settled(s, tile, {}, log, bt, row, col);
      ElementEnds(ar, a, b, initial, before, log, s, steps, bt, row, col);
    }
    forall i: nat | i < |initial| ensures Count(log, i) == 1 {
      var bt, row, col := FlatSurjective(i, s.batch, s.m, s.n);
      assert InBounds(s, bt, row, col);
      assert Settled(s, tile, {}, log, bt, row, col);
    }
  }

  /** Progress since `before`, after one more thread has stored. */
  lemma StoreSince<F>(ar: Arith<F>, a: seq<F>, b: seq<F>, s: Dims, steps: nat, tile: nat, todo: set<Thread>,
                      before: seq<Write<F>>, stores: seq<Write<F>>, t: Thread)
    requires (tile == 16 || tile == 32) && Launchable(s)
    requires Sized(s, a, b) && t in todo && Launched(tile, s, t)
    requires before <= stores && Progress(ar, a, b, s, steps, tile, todo, stores[|before|..])
    ensures var stores' := stores + StoresOf(ar, a, b, s, steps, tile, t);
            before <= stores' && Progress(ar, a, b, s, steps, tile, todo - {t}, stores'[|before|..])
  {
    hide *;
    StoreKeepsProgress(ar, a, b, s, steps, tile, todo, stores[|before|..], t);
    var more := StoresOf(ar, a, b, s, steps, tile, t);
    assert (stores + more)[|before|..] == stores[|before|..] + more;
  }
}
