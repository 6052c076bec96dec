/** The job record of the scheduler, its device footprint in `size_t` arithmetic, and the
    order of the submission queue. */
module Jobs {
  import opened Sorting

  /** Number of values of a 64-bit `size_t`. */
  const SIZE_VALUES: int := 0x1_0000_0000_0000_0000
  /** Half of that range: sums of two values below it cannot wrap. */
  const SIZE_HALF: int := 0x8000_0000_0000_0000
  const SIZEOF_FLOAT: int := 4

  type int32 = x: int | -0x8000_0000 <= x < 0x8000_0000
  type size_t = x: int | 0 <= x < SIZE_VALUES

  /** Conversion to `size_t`, and the wrap of every `size_t` operation. */
  function ToSize(x: int): size_t {
    x % SIZE_VALUES
  }

  /** `submitTime` is a steady-clock reading in nanoseconds; 0 is the default time point of a
      job that never went through `submit`. */
  datatype Job = Job(id: nat, m: int32, n: int32, k: int32, batch: int32, priority: int32,
                     submitTime: int, seqNo: nat)

  function BytesRequired(j: Job): size_t {
    var a := ToSize(ToSize(j.m) * ToSize(j.k));
    var b := ToSize(ToSize(j.k) * ToSize(j.n));
    var c := ToSize(ToSize(j.m) * ToSize(j.n));
    ToSize(ToSize(ToSize(ToSize(a + b) + c) * ToSize(j.batch)) * SIZEOF_FLOAT)
  }

  /** Of the same dimensions and priority, whoever submitted it and when. */
  predicate SameShape(a: Job, b: Job) {
    a.m == b.m && a.n == b.n && a.k == b.k && a.batch == b.batch && a.priority == b.priority
  }

  lemma ShapeFixesBytes(a: Job, b: Job)
    requires SameShape(a, b)
    ensures BytesRequired(a) == BytesRequired(b)
  {
    hide ToSize;
  }

  /** `BytesRequired` as a weight for `Total`. */
  function JobBytes(): Job -> nat {
    (j: Job) => BytesRequired(j)
  }

  /** The footprint without any wrap-around. */
  function ExactBytes(j: Job): int {
    (j.m * j.k + j.k * j.n + j.m * j.n) * j.batch * SIZEOF_FLOAT
  }

  /** Dimensions are non-negative and the footprint fits a `size_t`. */
  predicate Representable(j: Job) {
    0 <= j.m && 0 <= j.n && 0 <= j.k && 0 <= j.batch && ExactBytes(j) < SIZE_VALUES
  }

  // ----- modular arithmetic

  lemma ModUnique(x: int, q: int, r: int)
    requires 0 <= r < SIZE_VALUES && x == q * SIZE_VALUES + r
    ensures ToSize(x) == r
  {
  }

  lemma WrapMul(x: int, y: int)
    ensures ToSize(ToSize(x) * y) == ToSize(x * y)
    ensures ToSize(y * ToSize(x)) == ToSize(x * y)
  {
    var q, r := x / SIZE_VALUES, ToSize(x);
    assert x == q * SIZE_VALUES + r;
    var q', r' := (r * y) / SIZE_VALUES, ToSize(r * y);
    assert r * y == q' * SIZE_VALUES + r';
    assert x * y == (q * y + q') * SIZE_VALUES + r' by {
      assert x * y == (q * SIZE_VALUES) * y + r * y;
      assert (q * SIZE_VALUES) * y == (q * y) * SIZE_VALUES;
    }
    ModUnique(x * y, q * y + q', r');
    assert y * r == r * y;
  }

  lemma WrapMul2(x: int, y: int)
    ensures ToSize(ToSize(x) * ToSize(y)) == ToSize(x * y)
  {
    WrapMul(x, ToSize(y));
    WrapMul(y, x);
    assert ToSize(x * ToSize(y)) == ToSize(y * x);
    assert y * x == x * y;
  }

  lemma WrapAdd(x: int, y: int)
    ensures ToSize(ToSize(x) + y) == ToSize(x + y)
  {
    var q, r := x / SIZE_VALUES, ToSize(x);
    var q', r' := (r + y) / SIZE_VALUES, ToSize(r + y);
    assert x + y == (q + q') * SIZE_VALUES + r';
    ModUnique(x + y, q + q', r');
  }

  lemma WrapSum3(a: int, b: int, c: int)
    ensures ToSize(ToSize(ToSize(a) + ToSize(b)) + ToSize(c)) == ToSize(a + b + c)
    ensures ToSize(ToSize(a) + ToSize(b) + ToSize(c)) == ToSize(a + b + c)
  {
    WrapAdd(a, ToSize(b));
    WrapAdd(b, a);
    assert ToSize(ToSize(a) + ToSize(b)) == ToSize(a + b);
    WrapAdd(a + b, ToSize(c));
    WrapAdd(c, a + b);
    WrapAdd(ToSize(a) + ToSize(b), ToSize(c));
  }

  /** The wrapped evaluation of a footprint with matrix sizes `a`, `b`, `c` and batch count `z`. */
  lemma WrapFootprint(a: int, b: int, c: int, z: int)
    ensures ToSize(ToSize(ToSize(ToSize(ToSize(a) + ToSize(b)) + ToSize(c)) * ToSize(z)) * SIZEOF_FLOAT)
            == ToSize((a + b + c) * z * SIZEOF_FLOAT)
  {
    WrapSum3(a, b, c);
    WrapMul2(a + b + c, z);
    WrapMul((a + b + c) * z, SIZEOF_FLOAT);
  }

  lemma BytesByMatrix(j: Job)
    ensures
      BytesRequired(j)
      == ToSize(ToSize(ToSize(ToSize(ToSize(j.m * j.k) + ToSize(j.k * j.n))
                              + ToSize(j.m * j.n)) * ToSize(j.batch)) * SIZEOF_FLOAT)
  {
    WrapMul2(j.m, j.k);
    WrapMul2(j.k, j.n);
    WrapMul2(j.m, j.n);
  }

  /** The stepwise `size_t` computation is the exact footprint modulo 2^64, for every choice of
      dimensions including negative ones; it is the footprint itself for representable jobs. */
  lemma BytesAreExactModuloSize(j: Job)
    ensures BytesRequired(j) == ToSize(ExactBytes(j))
    ensures Representable(j) ==> BytesRequired(j) == ExactBytes(j)
  {
    BytesByMatrix(j);
    hide ToSize;
    hide BytesRequired;
    WrapFootprint(j.m * j.k, j.k * j.n, j.m * j.n, j.batch);
    if Representable(j) {
      ExactBytesNonNegative(j);
      SmallIsUnwrapped(ExactBytes(j));
    }
  }

  lemma ExactBytesNonNegative(j: Job)
    requires Representable(j)
    ensures 0 <= ExactBytes(j)
    ensures 0 <= j.m * j.k * j.batch && 0 <= j.k * j.n * j.batch && 0 <= j.m * j.n * j.batch
  {
    NonNegativeProduct(j.m, j.k);
    NonNegativeProduct(j.k, j.n);
    NonNegativeProduct(j.m, j.n);
    NonNegativeProduct(j.m * j.k, j.batch);
    NonNegativeProduct(j.k * j.n, j.batch);
    NonNegativeProduct(j.m * j.n, j.batch);
    NonNegativeProduct(j.m * j.k + j.k * j.n + j.m * j.n, j.batch);
  }

  lemma NonNegativeProduct(x: int, y: int)
    requires 0 <= x && 0 <= y
    ensures 0 <= x * y
  {
  }

  // ----- the three device buffers of a job

  /** Element counts of A, B and C as the worker computes them. */
  function ElementCounts(j: Job): (counts: seq<size_t>)
    ensures |counts| == 3
  {
    [ToSize(ToSize(ToSize(j.m) * ToSize(j.k)) * ToSize(j.batch)),
     ToSize(ToSize(ToSize(j.k) * ToSize(j.n)) * ToSize(j.batch)),
     ToSize(ToSize(ToSize(j.m) * ToSize(j.n)) * ToSize(j.batch))]
  }

  /** Bytes asked of the device allocator for `count` elements. */
  function AllocationSize(count: size_t): size_t {
    ToSize(count * SIZEOF_FLOAT)
  }

  lemma ProductBytes(x: int, y: int, z: int)
    ensures AllocationSize(ToSize(ToSize(ToSize(x) * ToSize(y)) * ToSize(z))) == ToSize(x * y * z * SIZEOF_FLOAT)
  {
    WrapMul2(x, y);
    WrapMul2(x * y, z);
    WrapMul(x * y * z, SIZEOF_FLOAT);
  }

  /** The reservation made for a job and the three allocations made for it agree: always modulo
      2^64, and exactly for representable jobs. */
  lemma AllocationsMatchReservation(j: Job)
    ensures
      var e := ElementCounts(j);
      var sum := AllocationSize(e[0]) + AllocationSize(e[1]) + AllocationSize(e[2]);
      && ToSize(sum) == BytesRequired(j)
      && (Representable(j) ==> sum == BytesRequired(j))
  {
    ProductBytes(j.m, j.k, j.batch);
    ProductBytes(j.k, j.n, j.batch);
    ProductBytes(j.m, j.n, j.batch);
    BytesAreExactModuloSize(j);
    hide ToSize;
    hide BytesRequired;
    Distribute(j.m * j.k, j.k * j.n, j.m * j.n, j.batch);
    var x, y, z := j.m * j.k * j.batch * SIZEOF_FLOAT, j.k * j.n * j.batch * SIZEOF_FLOAT,
        j.m * j.n * j.batch * SIZEOF_FLOAT;
    assert ExactBytes(j) == x + y + z;
    WrapSum3(x, y, z);
    if Representable(j) {
      ExactBytesNonNegative(j);
      SmallIsUnwrapped(x);
      SmallIsUnwrapped(y);
      SmallIsUnwrapped(z);
    }
  }

  /** A representable job's three buffers have exactly the elements of its matrices: A of m by k, B of k
      by n and C of m by n. */
  lemma CountsAreExact(j: Job)
    requires Representable(j)
    ensures ElementCounts(j)[0] == j.m * j.k * j.batch
    ensures ElementCounts(j)[1] == j.k * j.n * j.batch
    ensures ElementCounts(j)[2] == j.m * j.n * j.batch
  {
    CountOf(j.m, j.k, j.batch);
    CountOf(j.k, j.n, j.batch);
    CountOf(j.m, j.n, j.batch);
    ExactBytesNonNegative(j);
    hide ToSize;
    Distribute(j.m * j.k, j.k * j.n, j.m * j.n, j.batch);
    SmallIsUnwrapped(j.m * j.k * j.batch);
    SmallIsUnwrapped(j.k * j.n * j.batch);
    SmallIsUnwrapped(j.m * j.n * j.batch);
  }

  /** The allocator is asked for four bytes per element. */
  lemma SizesAreExact(j: Job)
    requires Representable(j)
    ensures AllocationSize(ElementCounts(j)[0]) == 4 * (j.m * j.k * j.batch)
    ensures AllocationSize(ElementCounts(j)[1]) == 4 * (j.k * j.n * j.batch)
    ensures AllocationSize(ElementCounts(j)[2]) == 4 * (j.m * j.n * j.batch)
  {
    CountsAreExact(j);
    ExactBytesNonNegative(j);
    hide ToSize;
    hide ElementCounts;
    Distribute(j.m * j.k, j.k * j.n, j.m * j.n, j.batch);
    SmallIsUnwrapped(j.m * j.k * j.batch * SIZEOF_FLOAT);
    SmallIsUnwrapped(j.k * j.n * j.batch * SIZEOF_FLOAT);
    SmallIsUnwrapped(j.m * j.n * j.batch * SIZEOF_FLOAT);
  }

  lemma CountOf(x: int, y: int, z: int)
    ensures ToSize(ToSize(ToSize(x) * ToSize(y)) * ToSize(z)) == ToSize(x * y * z)
  {
    WrapMul2(x, y);
    WrapMul2(x * y, z);
  }

  lemma Distribute(a: int, b: int, c: int, z: int)
    ensures (a + b + c) * z * SIZEOF_FLOAT == a * z * SIZEOF_FLOAT + b * z * SIZEOF_FLOAT + c * z * SIZEOF_FLOAT
  {
    assert (a + b + c) * z == a * z + b * z + c * z;
  }

  lemma SmallIsUnwrapped(x: int)
    ensures 0 <= x < SIZE_VALUES ==> ToSize(x) == x
  {
  }

  // ----- the submission queue

  /** `JobPriorityCompare` seen from the popping side: `a` leaves the queue before `b`. */
  function PopsBefore(): (Job, Job) -> bool {
    (a: Job, b: Job) => if a.priority != b.priority then a.priority > b.priority else a.seqNo < b.seqNo
  }

  ghost predicate DistinctSeqNos(s: seq<Job>) {
    forall a, b :: a in s && b in s && a != b ==> a.seqNo != b.seqNo
  }

  lemma PopOrderIsStrictTotal(s: seq<Job>)
    ensures StrictWeakOrder(PopsBefore())
    ensures DistinctSeqNos(s) ==> TotalOn(s, PopsBefore())
  {
  }

  /** The order in which draining the queue delivers the jobs held in it. */
  function DrainOrder(queue: seq<Job>): seq<Job> {
    SortBy(queue, PopsBefore())
  }

  /** Draining is lossless, highest priority first and first-in-first-out within a priority. */
  lemma DrainIsPriorityThenFifo(queue: seq<Job>)
    ensures multiset(DrainOrder(queue)) == multiset(queue)
    ensures
      var d := DrainOrder(queue);
      forall i, j :: 0 <= i < j < |d| ==>
        d[i].priority > d[j].priority || (d[i].priority == d[j].priority && d[i].seqNo <= d[j].seqNo)
  {
    PopOrderIsStrictTotal(queue);
    SortPermutes(queue, PopsBefore());
    SortSorts(queue, PopsBefore());
    var d := DrainOrder(queue);
    forall i, j | 0 <= i < j < |d|
      ensures d[i].priority > d[j].priority || (d[i].priority == d[j].priority && d[i].seqNo <= d[j].seqNo)
    {
      assert !PopsBefore()(d[j], d[i]);
    }
  }

  /** What a drain delivers depends only on which jobs are queued. */
  lemma DrainIsCanonical(queue: seq<Job>, other: seq<Job>)
    requires DistinctSeqNos(queue) && multiset(other) == multiset(queue)
    ensures DrainOrder(other) == DrainOrder(queue)
  {
    PopOrderIsStrictTotal(queue);
    SortPermutes(queue, PopsBefore());
    SortSorts(queue, PopsBefore());
    SortPermutes(other, PopsBefore());
    SortSorts(other, PopsBefore());
    MembersSurvive(DrainOrder(queue), queue);
    SortedUnique(DrainOrder(queue), DrainOrder(other), PopsBefore());
  }

  lemma MembersSurvive<T>(a: seq<T>, b: seq<T>)
    requires multiset(a) == multiset(b)
    ensures forall x :: x in a <==> x in b
  {
    assert forall x :: x in a <==> x in multiset(a);
    assert forall x :: x in b <==> x in multiset(b);
  }
}
