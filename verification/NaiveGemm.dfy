/** The naive kernel: 16 by 16 thread blocks, one thread per element of C. */
module NaiveGemm {
  import opened Jobs
  import opened Gemm

  /** One thread. The declared types of the local indices are the claim that the kernel's `int` and
      `size_t` arithmetic does not overflow. */
  method NaiveThread<F>(ar: Arith<F>, A: array<F>, B: array<F>, C: Output<F>, s: Dims, t: Thread)
    requires Launchable(s) && Launched(16, s, t) && Sized(s, A[..], B[..])
    requires |C.initial| == s.batch * (s.m * s.n)
    modifies C
    ensures C.stores == old(C.stores) + StoresOf(ar, A[..], B[..], s, s.k, 16, t)
  {
    hide Flat;
    hide Pitch;
    hide RowMajor;
    hide Launchable;
    hide Sized;
    ThreadIndexFits(16, s, t);
    hide Launched;
    hide RowOf;
    hide ColOf;
    hide Dot;
    var col: int32 := t.blockX * 16 + t.threadX;
    var row: int32 := t.blockY * 16 + t.threadY;
    if row >= s.m || col >= s.n {
      return;
    }
    var pitchA: size_t := Pitch(t.blockZ, s.m, s.k);
    var pitchB: size_t := Pitch(t.blockZ, s.k, s.n);
    ghost var a, b := A[..], B[..];
    var acc := ar.zero;
    DotStart(ar, a, b, s, t.blockZ, row, col);
    var k := 0;
    while k < s.k
      modifies {}
      invariant 0 <= k <= s.k
      invariant acc == Dot(ar, a, b, s, t.blockZ, row, col, k)
    {
      AddressA(s, t.blockZ, row, k);
      AddressB(s, t.blockZ, k, col);
      DotStep(ar, a, b, s, t.blockZ, row, col, k);
      var i: int32 := RowMajor(row, s.k, k);
      var j: int32 := RowMajor(k, s.n, col);
      acc := ar.mac(acc, A[pitchA + i], B[pitchB + j]);
      k := k + 1;
    }
    AddressC(s, t.blockZ, row, col);
    var i: int32 := RowMajor(row, s.n, col);
    C.Store(Pitch(t.blockZ, s.m, s.n) + i, acc);
    assert A[..] == a && B[..] == b;
  }

  /** The launch: the threads run in any order. C becomes the batch of products, and the stores made
      to it hit each element exactly once. */
  method NaiveGemm<F>(ar: Arith<F>, A: array<F>, B: array<F>, C: Output<F>, s: Dims)
    requires Launchable(s) && Sized(s, A[..], B[..])
    requires |C.initial| == s.batch * (s.m * s.n)
    modifies C
    ensures IsProduct(ar, A[..], B[..], C.Contents(), s)
    ensures StoredOnce(old(C.stores), C.stores, |C.initial|)
  {
    assert C.Contents() == Replay(C.initial, C.stores);
    ghost var before := C.stores;
    hide Sized;
    hide Launchable;
    hide Launched;
    hide Grid;
    hide Progress;
    hide StoresOf;
    hide Replay;
    hide IsProduct;
    hide Leaves;
    hide StoredOnce;
    var todo := Grid(16, s);
    ghost var a, b := A[..], B[..];
    ProgressStarts(ar, a, b, s, s.k, 16);
    while todo != {}
      invariant A[..] == a && B[..] == b
      invariant todo <= Grid(16, s)
      invariant before <= C.stores && Progress(ar, a, b, s, s.k, 16, todo, C.stores[|before|..])
      decreases todo
    {
      var t :| t in todo;
      GridIsLaunched(16, s, t);
      StoreSince(ar, a, b, s, s.k, 16, todo, before, C.stores, t);
      NaiveThread(ar, A, B, C, s, t);
      todo := todo - {t};
    }
    ProgressEnds(ar, a, b, C.initial, before, C.stores, s, s.k, 16);
    LeavesProduct(ar, a, b, C.Contents(), s);
  }
}
