/** Element arithmetic with the zeros and the smallest steps of binary32: values are whole multiples
    of 2^-149, results are rounded to the nearest multiple, and a zero result has the sign that
    section 6.3 of IEEE 754-2019 gives it. Significands are not limited to 24 bits and nothing
    overflows. It tells a fused multiply-add, as compilers emit for `acc += a * b`, from a separate
    multiply and add. */
module SignedZeros {
  import opened Gemm
  import opened TiledGemm

  /** A zero, or plus or minus `above + 1` multiples. */
  datatype Float = Zero(negative: bool) | NonZero(negative: bool, above: nat)

  const SCALE: int := 0x20_0000_0000_0000_0000_0000_0000_0000_0000_0000

  function Units(x: Float): int {
    if x.Zero? then 0 else if x.negative then -(x.above + 1) else x.above + 1
  }

  function Of(units: int): Float
    requires units != 0
  {
    NonZero(units < 0, if units < 0 then -units - 1 else units - 1)
  }

  /** To the nearest integer, ties to even. */
  function Nearest(x: real): int {
    var low := x.Floor;
    var rest := x - low as real;
    if rest < 0.5 || (rest == 0.5 && low % 2 == 0) then low else low + 1
  }

  /** No integer is nearer, and of two that are equally near it is the even one. */
  lemma NearestIsClosest(x: real)
    ensures -0.5 <= x - Nearest(x) as real <= 0.5
    ensures x - Nearest(x) as real == 0.5 || x - Nearest(x) as real == -0.5 ==> Nearest(x) % 2 == 0
  {
    var low := x.Floor;
    assert low as real <= x < low as real + 1.0;
    assert (low + 1) as real == low as real + 1.0;
  }

  /** A result that is not exactly zero keeps its sign when it rounds to zero. */
  function Rounded(exact: real): Float
    requires exact != 0.0
  {
    if Nearest(exact) == 0 then Zero(exact < 0.0) else Of(Nearest(exact))
  }

  /** The exact product, in multiples of 2^-149. */
  function Product(a: Float, b: Float): real {
    (Units(a) * Units(b)) as real / SCALE as real
  }

  /** An exact sum of zero is -0 only if both summands are negative zeros. */
  function ZeroSum(acc: Float, other: real, negative: bool): Float {
    Zero(acc == Zero(true) && other == 0.0 && negative)
  }

  /** One rounding, of the whole `acc + a * b`. */
  function FusedMac(acc: Float, a: Float, b: Float): Float {
    var exact := Units(acc) as real + Product(a, b);
    if exact != 0.0 then Rounded(exact) else ZeroSum(acc, Product(a, b), a.negative != b.negative)
  }

  /** The product is rounded before it is added; the sum of two multiples is exact. */
  function UnfusedMac(acc: Float, a: Float, b: Float): Float {
    var product := if Product(a, b) == 0.0 then Zero(a.negative != b.negative) else Rounded(Product(a, b));
    var sum := Units(acc) + Units(product);
    if sum != 0 then Of(sum) else ZeroSum(acc, Units(product) as real, product.negative)
  }

  function Fused(): Arith<Float> {
    Arith(Zero(false), (acc: Float, a: Float, b: Float) => FusedMac(acc, a, b))
  }

  function Unfused(): Arith<Float> {
    Arith(Zero(false), (acc: Float, a: Float, b: Float) => UnfusedMac(acc, a, b))
  }

  // ----- a separate multiply and add

  function NotNegativeZero(): Float -> bool {
    (x: Float) => x != Zero(true)
  }

  lemma UnitsOf(x: Float)
    ensures x.NonZero? ==> Units(x) != 0 && Of(Units(x)) == x
  {
  }

  lemma NoProduct()
    ensures Product(Zero(false), Zero(false)) == 0.0
  {
  }

  /** An accumulator that starts at +0 never becomes -0, and adding 0 * 0 leaves it alone. */
  lemma UnfusedIsLawful()
    ensures Lawful(Unfused(), NotNegativeZero())
  {
    NoProduct();
    forall acc: Float ensures acc != Zero(true) ==> Unfused().mac(acc, Zero(false), Zero(false)) == acc {
      UnitsOf(acc);
    }
    hide Product;
    hide Nearest;
    hide Units;
  }

  // ----- a fused multiply-add

  lemma NearestOfWhole(n: int)
    ensures Nearest(n as real) == n
  {
    assert (n as real).Floor == n;
  }

  /** A fused step on zeros turns -0 into +0 and changes no other value. */
  lemma FusedStep(x: Float)
    ensures Fused().mac(x, Zero(false), Zero(false)) == if x == Zero(true) then Zero(false) else x
  {
    NoProduct();
    UnitsOf(x);
    NearestOfWhole(Units(x));
    hide Product;
    hide Nearest;
  }

  lemma FusedSettles()
    ensures Settles(Fused())
    ensures forall x :: Stable(Fused(), x) <==> x != Zero(true)
  {
    forall x: Float ensures Stable(Fused(), x) <==> x != Zero(true) {
      FusedStep(x);
    }
    forall x: Float ensures Stable(Fused(), Fused().mac(x, Zero(false), Zero(false))) {
      FusedStep(x);
      FusedStep(Fused().mac(x, Zero(false), Zero(false)));
    }
    hide FusedMac;
  }

  /** With a fused multiply-add the tiled kernel leaves what the naive one does exactly when K is a
      multiple of 32 or no dot product is -0. */
  lemma FusedProductIff(a: seq<Float>, b: seq<Float>, c: seq<Float>, s: Dims)
    requires Sized(s, a, b) && |c| == s.batch * (s.m * s.n) && Leaves(Fused(), a, b, c, s, RoundedUp(s.k))
    ensures IsProduct(Fused(), a, b, c, s) <==>
              s.k % BLOCK == 0 || forall bt: nat, row: nat, col: nat :: InBounds(s, bt, row, col) ==>
                                    Dot(Fused(), a, b, s, bt, row, col, s.k) != Zero(true)
  {
    FusedSettles();
    SettlingProductIff(Fused(), a, b, c, s);
    hide *;
  }

  // ----- an input where they differ

  /** 2^-100 and -2^-100. */
  const SMALL: Float := NonZero(false, 0x1_FFFF_FFFF_FFFF)
  const MINUS_SMALL: Float := NonZero(true, 0x1_FFFF_FFFF_FFFF)

  lemma Underflow()
    ensures Fused().mac(Zero(false), SMALL, MINUS_SMALL) == Zero(true)
  {
    var p := Product(SMALL, MINUS_SMALL);
    assert p == -(0x4_0000_0000_0000_0000_0000_0000 as real) / SCALE as real;
    assert -0.5 < p < 0.0;
    assert p.Floor == -1;
  }

  const ONE: Dims := Dims(1, 1, 1, 1)

  lemma OneProduct()
    ensures Sized(ONE, [SMALL], [MINUS_SMALL]) && InBounds(ONE, 0, 0, 0)
    ensures Dot(Fused(), [SMALL], [MINUS_SMALL], ONE, 0, 0, 0, 1) == Zero(true)
    ensures PadDot(Fused(), [SMALL], [MINUS_SMALL], ONE, 0, 0, 0, RoundedUp(1)) == Zero(false)
  {
    var a, b := [SMALL], [MINUS_SMALL];
    assert RoundedUp(1) == 32;
    Underflow();
    FusedStep(Zero(true));
    FusedSettles();
    hide FusedMac;
    hide Settles;
    hide Stable;
    hide RoundedUp;
    DotStep(Fused(), a, b, ONE, 0, 0, 0, 0);
    DotStart(Fused(), a, b, ONE, 0, 0, 0);
    PaddedOnce(Fused(), a, b, ONE, 0, 0, 0, 32);
    hide PadDot;
    hide Dot;
  }

  /** One product of 2^-100 and -2^-100: the naive kernel stores -0, the tiled one +0. */
  lemma KernelsDiffer(c: seq<Float>)
    requires |c| == 1
    ensures Sized(ONE, [SMALL], [MINUS_SMALL])
    ensures Leaves(Fused(), [SMALL], [MINUS_SMALL], c, ONE, RoundedUp(1)) ==> c[0] == Zero(false)
    ensures IsProduct(Fused(), [SMALL], [MINUS_SMALL], c, ONE) ==> c[0] == Zero(true)
  {
    OneProduct();
    ElementOfOne(c);
    hide Fused;
    hide RoundedUp;
    hide PadDot;
    hide Dot;
    hide Element;
    hide InBounds;
    hide SMALL;
    hide MINUS_SMALL;
  }

  lemma ElementOfOne(c: seq<Float>)
    requires |c| == 1
    ensures |c| == ONE.batch * (ONE.m * ONE.n) && InBounds(ONE, 0, 0, 0) && Element(c, ONE, 0, 0, 0) == c[0]
  {
  }
}
