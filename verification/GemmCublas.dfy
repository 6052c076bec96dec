/** The cuBLAS route: a row-major product computed by a column-major routine with the operands and
    leading dimensions exchanged. Elements form an exact commutative semiring here, because the
    library may add the products in any order. */
module GemmCublas {
  import opened Gemm
  import opened Totals

  datatype Semiring<!F> = Semiring(zero: F, one: F, add: (F, F) -> F, mul: (F, F) -> F)

  ghost predicate Laws<F(!new)>(r: Semiring<F>) {
    && (forall x, y :: r.add(x, y) == r.add(y, x))
    && (forall x, y, z :: r.add(r.add(x, y), z) == r.add(x, r.add(y, z)))
    && (forall x :: r.add(x, r.zero) == x)
    && (forall x, y :: r.mul(x, y) == r.mul(y, x))
    && (forall x :: r.mul(r.one, x) == x)
    && (forall x :: r.mul(r.zero, x) == r.zero)
  }

  /** The multiply-add of the other kernels over the same elements. */
  function AsArith<F>(r: Semiring<F>): Arith<F> {
    Arith(r.zero, (acc, a, b) => r.add(acc, r.mul(a, b)))
  }

  // ----- sums in any order

  /** A way of bracketing and ordering a sum of numbered terms. */
  datatype Tree = Empty | Leaf(term: nat) | Node(left: Tree, right: Tree)

  ghost function Value<F>(r: Semiring<F>, f: nat -> F, t: Tree): F {
    match t
    case Empty => r.zero
    case Leaf(l) => f(l)
    case Node(x, y) => r.add(Value(r, f, x), Value(r, f, y))
  }

  function Leaves(t: Tree): seq<nat> {
    match t
    case Empty => []
    case Leaf(l) => [l]
    case Node(x, y) => Leaves(x) + Leaves(y)
  }

  /** 0, ..., k - 1, once each. */
  function Below(k: nat): multiset<nat> {
    if k == 0 then multiset{} else Below(k - 1) + multiset{k - 1}
  }

  ghost predicate Reduces(t: Tree, k: nat) {
    multiset(Leaves(t)) == Below(k)
  }

  ghost function SumSeq<F>(r: Semiring<F>, f: nat -> F, s: seq<nat>): F {
    if s == [] then r.zero else r.add(f(s[0]), SumSeq(r, f, s[1..]))
  }

  ghost function SumTo<F>(r: Semiring<F>, f: nat -> F, k: nat): F {
    if k == 0 then r.zero else r.add(SumTo(r, f, k - 1), f(k - 1))
  }

  lemma {:induction false} SumConcat<F(!new)>(r: Semiring<F>, f: nat -> F, s: seq<nat>, t: seq<nat>)
    requires Laws(r)
    ensures SumSeq(r, f, s + t) == r.add(SumSeq(r, f, s), SumSeq(r, f, t))
  {
    hide Laws;
    if s == [] {
      assert s + t == t;
      AddLaws(r, r.zero, SumSeq(r, f, t), r.zero);
    } else {
      assert (s + t)[1..] == s[1..] + t;
      assert SumSeq(r, f, s + t) == r.add(f(s[0]), SumSeq(r, f, s[1..] + t));
      assert SumSeq(r, f, s) == r.add(f(s[0]), SumSeq(r, f, s[1..]));
      hide SumSeq;
      SumConcat(r, f, s[1..], t);
      AddLaws(r, f(s[0]), SumSeq(r, f, s[1..]), SumSeq(r, f, t));
    }
  }

  lemma AddLaws<F(!new)>(r: Semiring<F>, x: F, y: F, z: F)
    requires Laws(r)
    ensures r.add(r.add(x, y), z) == r.add(x, r.add(y, z))
    ensures r.add(y, r.zero) == r.add(r.zero, y) == y
  {
  }

  lemma {:induction false} ValueIsSum<F(!new)>(r: Semiring<F>, f: nat -> F, t: Tree)
    requires Laws(r)
    ensures Value(r, f, t) == SumSeq(r, f, Leaves(t))
  {
    match t
    case Empty =>
    case Leaf(l) => assert [l][1..] == [];
    case Node(x, y) =>
      ValueIsSum(r, f, x);
      ValueIsSum(r, f, y);
      SumConcat(r, f, Leaves(x), Leaves(y));
  }

  lemma SumWithout<F(!new)>(r: Semiring<F>, f: nat -> F, s: seq<nat>, i: nat)
    requires Laws(r) && i < |s|
    ensures SumSeq(r, f, s) == r.add(SumSeq(r, f, s[..i] + s[i + 1..]), f(s[i]))
  {
    var a, b := s[..i], s[i + 1..];
    assert s == a + ([s[i]] + b);
    SumConcat(r, f, a, [s[i]] + b);
    SumConcat(r, f, a, b);
    assert ([s[i]] + b)[1..] == b;
    assert SumSeq(r, f, [s[i]] + b) == r.add(f(s[i]), SumSeq(r, f, b));
  }

  /** Any ordering of the terms 0..k-1 has the same sum. */
  lemma {:induction false} SumOfPermutation<F(!new)>(r: Semiring<F>, f: nat -> F, s: seq<nat>, k: nat)
    requires Laws(r) && multiset(s) == Below(k)
    ensures SumSeq(r, f, s) == SumTo(r, f, k)
    decreases k
  {
    if k == 0 {
      assert |multiset(s)| == |s|;
    } else {
      var i := FindLast(s, k);
      SumWithout(r, f, s, i);
      SumOfPermutation(r, f, s[..i] + s[i + 1..], k - 1);
    }
    hide Laws;
    hide Below;
  }

  lemma FindLast(s: seq<nat>, k: nat) returns (i: nat)
    requires k > 0 && multiset(s) == Below(k)
    ensures i < |s| && s[i] == k - 1 && multiset(s[..i] + s[i + 1..]) == Below(k - 1)
  {
    var last: nat := k - 1;
    assert last in multiset(s);
    i :| 0 <= i < |s| && s[i] == last;
    RemoveFromMultiset(s, i);
    assert Below(k) == Below(k - 1) + multiset{last};
    assert multiset(s) - multiset{last} == Below(k - 1);
  }

  /** However the library brackets and orders a sum of k terms, the value is the in-order one. */
  lemma AnyReductionIsTheSum<F(!new)>(r: Semiring<F>, f: nat -> F, t: Tree, k: nat)
    requires Laws(r) && Reduces(t, k)
    ensures Value(r, f, t) == SumTo(r, f, k)
  {
    ValueIsSum(r, f, t);
    SumOfPermutation(r, f, Leaves(t), k);
  }

  /** The in-order reduction is one of them. */
  function InOrder(k: nat): Tree {
    if k == 0 then Empty else Node(InOrder(k - 1), Leaf(k - 1))
  }

  lemma {:induction false} InOrderReduces(k: nat)
    ensures Reduces(InOrder(k), k)
  {
    if k > 0 {
      InOrderReduces(k - 1);
    }
  }

  // ----- the strided-batched column-major routine

  /** Arguments of one call without transposition: C' = alpha A' B' + beta C', where A' is m by k,
      B' is k by n and C' is m by n. */
  datatype Call = Call(m: nat, n: nat, k: nat, lda: nat, strideA: nat, ldb: nat, strideB: nat, ldc: nat, strideC: nat,
                       batch: nat)

  /** Element (i, j) of column-major matrix p. */
  function ColumnMajor(p: nat, i: nat, j: nat, ld: nat, stride: nat): nat {
    p * stride + (j * ld + i)
  }

  /** All elements of the batch of `rows` by `cols` matrices lie within the buffer. */
  ghost predicate Within(len: nat, rows: nat, cols: nat, ld: nat, stride: nat, batch: nat) {
    forall p: nat, i: nat, j: nat :: p < batch && i < rows && j < cols ==> ColumnMajor(p, i, j, ld, stride) < len
  }

  /** What the library asks of its arguments. */
  ghost predicate ValidCall(call: Call, lenA: nat, lenB: nat, lenC: nat) {
    && call.lda >= call.m && call.lda >= 1 && call.ldb >= call.k && call.ldb >= 1 && call.ldc >= call.m && call.ldc >= 1
    && Within(lenA, call.m, call.k, call.lda, call.strideA, call.batch)
    && Within(lenB, call.k, call.n, call.ldb, call.strideB, call.batch)
    && Within(lenC, call.m, call.n, call.ldc, call.strideC, call.batch)
  }

  /** The products summed into element (i, j) of matrix p. */
  ghost function Terms<F>(r: Semiring<F>, call: Call, a: seq<F>, b: seq<F>, p: nat, i: nat, j: nat): nat -> F {
    (l: nat) =>
      var x, y := ColumnMajor(p, i, l, call.lda, call.strideA), ColumnMajor(p, l, j, call.ldb, call.strideB);
      if x < |a| && y < |b| then r.mul(a[x], b[y]) else r.zero
  }

  /** One element of the result, for some order of summation. */
  ghost predicate ElementDelivered<F>(r: Semiring<F>, call: Call, alpha: F, a: seq<F>, b: seq<F>, beta: F, c: seq<F>,
                                      c': seq<F>, p: nat, i: nat, j: nat)
    requires |c| == |c'|
  {
    var at := ColumnMajor(p, i, j, call.ldc, call.strideC);
    at < |c| &&
    exists t :: Reduces(t, call.k)
                && c'[at] == r.add(r.mul(alpha, Value(r, Terms(r, call, a, b, p, i, j), t)), r.mul(beta, c[at]))
  }

  /** The routine accepts its arguments and leaves `c'` in place of `c`. */
  ghost predicate Delivered<F>(r: Semiring<F>, call: Call, alpha: F, a: seq<F>, b: seq<F>, beta: F, c: seq<F>,
                               c': seq<F>) {
    && ValidCall(call, |a|, |b|, |c|)
    && |c| == |c'|
    && forall p: nat, i: nat, j: nat :: p < call.batch && i < call.m && j < call.n ==>
         ElementDelivered(r, call, alpha, a, b, beta, c, c', p, i, j)
  }

  // ----- the call

  /** The call made for the row-major product: B plays A', A plays B', and the result has N rows. */
  function ExchangedCall(s: Dims): Call {
    Call(s.n, s.m, s.k, s.n, s.k * s.n, s.k, s.m * s.k, s.n, s.m * s.n, s.batch)
  }

  lemma WithinBatch(batch: nat, rows: nat, cols: nat)
    ensures Within(batch * (cols * rows), rows, cols, rows, cols * rows, batch)
  {
    forall p: nat, i: nat, j: nat | p < batch && i < rows && j < cols
      ensures ColumnMajor(p, i, j, rows, cols * rows) < batch * (cols * rows)
    {
      FlatBound(p, j, i, batch, cols, rows);
    }
  }

  /** The exchanged call is accepted exactly when its leading dimensions N and K are positive. */
  lemma ExchangedCallIsValid<F>(s: Dims, a: seq<F>, b: seq<F>, c: seq<F>)
    requires Sized(s, a, b) && |c| == s.batch * (s.m * s.n)
    ensures ValidCall(ExchangedCall(s), |b|, |a|, |c|) <==> s.n > 0 && s.k > 0
  {
    WithinBatch(s.batch, s.n, s.k);
    WithinBatch(s.batch, s.k, s.m);
    WithinBatch(s.batch, s.n, s.m);
    hide Within;
  }

  /** The in-order sum of the exchanged terms is the dot product of the other kernels. */
  lemma {:induction false} ExchangedTerms<F(!new)>(r: Semiring<F>, a: seq<F>, b: seq<F>, s: Dims, bt: nat, row: nat,
                                                   col: nat, k: nat)
    requires Laws(r) && Sized(s, a, b) && InBounds(s, bt, row, col) && k <= s.k
    ensures SumTo(r, Terms(r, ExchangedCall(s), b, a, bt, col, row), k) == Dot(AsArith(r), a, b, s, bt, row, col, k)
  {
    hide Terms;
    hide Flat;
    hide Laws;
    hide Sized;
    if k > 0 {
      ExchangedTerms(r, a, b, s, bt, row, col, k - 1);
      DotStep(AsArith(r), a, b, s, bt, row, col, k - 1);
      ExchangedTerm(r, a, b, s, bt, row, col, k - 1);
      hide Dot;
    }
  }

  lemma ExchangedTerm<F(!new)>(r: Semiring<F>, a: seq<F>, b: seq<F>, s: Dims, bt: nat, row: nat, col: nat, k: nat)
    requires Laws(r) && Sized(s, a, b) && InBounds(s, bt, row, col) && k < s.k
    requires Flat(bt, row, k, s.m, s.k) < |a| && Flat(bt, k, col, s.k, s.n) < |b|
    ensures Terms(r, ExchangedCall(s), b, a, bt, col, row)(k)
            == r.mul(a[Flat(bt, row, k, s.m, s.k)], b[Flat(bt, k, col, s.k, s.n)])
  {
    assert ColumnMajor(bt, col, k, s.n, s.k * s.n) == Flat(bt, k, col, s.k, s.n);
    assert ColumnMajor(bt, k, row, s.k, s.m * s.k) == Flat(bt, row, k, s.m, s.k);
    hide Flat;
    hide ColumnMajor;
  }

  lemma ScaledByOne<F(!new)>(r: Semiring<F>, v: F, c0: F)
    requires Laws(r)
    ensures r.add(r.mul(r.one, v), r.mul(r.zero, c0)) == v
  {
  }

  /** One element: what the library may deliver at (col, row) of its column-major result is the
      row-major product's element (row, col), and nothing else. */
  lemma ExchangedElement<F(!new)>(r: Semiring<F>, a: seq<F>, b: seq<F>, c: seq<F>, c': seq<F>, s: Dims, bt: nat,
                                  row: nat, col: nat)
    requires Laws(r) && Sized(s, a, b) && |c| == |c'| == s.batch * (s.m * s.n) && InBounds(s, bt, row, col)
    ensures ElementDelivered(r, ExchangedCall(s), r.one, b, a, r.zero, c, c', bt, col, row)
            <==> Element(c', s, bt, row, col) == Dot(AsArith(r), a, b, s, bt, row, col, s.k)
  {
    var f := Terms(r, ExchangedCall(s), b, a, bt, col, row);
    var at := Flat(bt, row, col, s.m, s.n);
    assert ColumnMajor(bt, col, row, s.n, s.m * s.n) == at;
    FlatBound(bt, row, col, s.batch, s.m, s.n);
    ExchangedTerms(r, a, b, s, bt, row, col, s.k);
    InOrderReduces(s.k);
    forall t | Reduces(t, s.k)
      ensures r.add(r.mul(r.one, Value(r, f, t)), r.mul(r.zero, c[at])) == Dot(AsArith(r), a, b, s, bt, row, col, s.k)
    {
      AnyReductionIsTheSum(r, f, t, s.k);
      ScaledByOne(r, Value(r, f, t), c[at]);
    }
    hide Laws;
    hide Value;
    hide Reduces;
    hide Terms;
    hide Dot;
    hide SumTo;
    hide Flat;
    hide ColumnMajor;
    hide InOrder;
  }

  /** The exchanged call with alpha = 1 and beta = 0 delivers exactly the row-major product, where
      it is accepted: every buffer the library may leave is the product, the product is one it may
      leave, and with N = 0 or K = 0 it leaves none, because it refuses the call. */
  lemma ExchangedCallIsTheProduct<F(!new)>(r: Semiring<F>, a: seq<F>, b: seq<F>, c: seq<F>, c': seq<F>, s: Dims)
    requires Laws(r) && Sized(s, a, b) && |c| == |c'| == s.batch * (s.m * s.n)
    ensures Delivered(r, ExchangedCall(s), r.one, b, a, r.zero, c, c')
            <==> s.n > 0 && s.k > 0 && IsProduct(AsArith(r), a, b, c', s)
  {
    ExchangedCallIsValid(s, a, b, c);
    hide ValidCall;
    hide Laws;
    hide Dot;
    hide Element;
    hide ElementDelivered;
    hide Sized;
    forall bt: nat, row: nat, col: nat | InBounds(s, bt, row, col)
      ensures ElementDelivered(r, ExchangedCall(s), r.one, b, a, r.zero, c, c', bt, col, row)
              <==> Element(c', s, bt, row, col) == Dot(AsArith(r), a, b, s, bt, row, col, s.k)
    {
      ExchangedElement(r, a, b, c, c', s, bt, row, col);
    }
  }

  /** The cuBLAS route and the naive kernel: where the library accepts the call it leaves the naive
      kernel's buffer and no other. Where K = 0 the naive kernel stores zeros and the library
      delivers nothing. */
  lemma AgreesWithNaive<F(!new)>(r: Semiring<F>, a: seq<F>, b: seq<F>, c: seq<F>, cublas: seq<F>, naive: seq<F>,
                                 s: Dims)
    requires Laws(r) && Sized(s, a, b) && |c| == |cublas| == |naive| == s.batch * (s.m * s.n)
    requires IsProduct(AsArith(r), a, b, naive, s)
    ensures Delivered(r, ExchangedCall(s), r.one, b, a, r.zero, c, cublas) <==> s.n > 0 && s.k > 0 && cublas == naive
  {
    hide *;
    ExchangedCallIsTheProduct(r, a, b, c, cublas, s);
    if IsProduct(AsArith(r), a, b, cublas, s) {
      ProductIsUnique(AsArith(r), a, b, cublas, naive, s);
    }
  }
}
