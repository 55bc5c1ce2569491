/** The numeric part of the client's value algebra: integers of any size, exact
    rationals, binary64 reals and complex numbers, and when two of them are the
    same number.  Finite reals are real numbers here (rounding is idealised). */
module Numbers {
  import opened Options

  const MIN_INT64 := -0x8000_0000_0000_0000
  const MAX_INT64 := 0x7fff_ffff_ffff_ffff

  predicate FitsInt64(n: int) {
    MIN_INT64 <= n <= MAX_INT64
  }

  type Int64 = n: int | FitsInt64(n)

  type Positive = n: int | 1 <= n witness 1

  /** A binary64.  The sign of zero is kept, as a round trip has to keep it. */
  datatype Float = NaN | Infinite(negative: bool) | NegativeZero | Finite(value: real)
  {
    predicate IsFinite() {
      NegativeZero? || Finite?
    }

    function Num(): real
      requires IsFinite()
    {
      if NegativeZero? then 0.0 else value
    }
  }

  /** The == of IEEE 754. */
  predicate FloatEq(x: Float, y: Float) {
    if x.NaN? || y.NaN? then false
    else if x.Infinite? || y.Infinite? then x == y
    else x.Num() == y.Num()
  }

  datatype Number =
    | Int(i: Int64)
    | BigInt(n: int)
    | Rational(num: int, den: Positive)
    | Real(x: Float)

  /** A number that is exact by its kind, as a fraction; a Real never is. */
  function ExactOf(n: Number): Option<real> {
    match n
    case Int(i) => Some(i as real)
    case BigInt(n) => Some(n as real)
    case Rational(num, den) => Some(num as real / den as real)
    case Real(_) => None
  }

  /** NewInteger: an integer is an Int within int64 and a BigInt beyond it. */
  function NewInteger(n: int): Number {
    if FitsInt64(n) then Int(n) else BigInt(n)
  }

  /** What numbersEqual is handed: a number, a complex number, or anything else. */
  datatype Numeric = Plain(n: Number) | Complex(re: Float, im: Float) | NotNumeric

  predicate OffAxis(z: Numeric) {
    z.Complex? && !(z.im.IsFinite() && z.im.Num() == 0.0)
  }

  function OnAxis(z: Numeric): Numeric {
    if z.Complex? then Plain(Real(z.re)) else z
  }

  predicate IsReal(z: Numeric) {
    z.Plain? && z.n.Real?
  }

  function ExactOfNumeric(z: Numeric): Option<real> {
    if z.Plain? then ExactOf(z.n) else None
  }

  predicate NumbersEqual(a: Numeric, b: Numeric) {
    if OffAxis(a) then
      b.Complex? && FloatEq(a.re, b.re) && FloatEq(a.im, b.im)
    else if OffAxis(b) then
      false
    else
      var a, b := OnAxis(a), OnAxis(b);
      if IsReal(a) && IsReal(b) then FloatEq(a.n.x, b.n.x)
      else if IsReal(a) then ExactEqual(b, a)
      else ExactEqual(a, b)
  }

  /** An exact number against any other: a Real by the rational it is. */
  predicate ExactEqual(a: Numeric, b: Numeric) {
    match ExactOfNumeric(a)
    case None => false
    case Some(x) =>
      if IsReal(b) then b.n.x.IsFinite() && x == b.n.x.Num()
      else ExactOfNumeric(b) == Some(x)
  }

  // ---------- what a number denotes ----------

  /** A coordinate: a finite number or an infinity; zero has one sign here. */
  datatype Coordinate = At(r: real) | Endless(negative: bool)

  /** A point of the complex plane; the real axis is apart, so that only a
      number off it needs a second coordinate. */
  datatype Point = Axis(re: Coordinate) | Off(re: Coordinate, im: Coordinate)

  function CoordinateOf(x: Float): Option<Coordinate> {
    match x
    case NaN => None
    case Infinite(negative) => Some(Endless(negative))
    case NegativeZero => Some(At(0.0))
    case Finite(r) => Some(At(r))
  }

  function AxisPoint(x: Float): Option<Point> {
    match CoordinateOf(x)
    case None => None
    case Some(c) => Some(Axis(c))
  }

  function PointOfNumber(n: Number): Option<Point> {
    match n
    case Real(x) => AxisPoint(x)
    case _ => Some(Axis(At(ExactOf(n).value)))
  }

  function PointOf(z: Numeric): Option<Point> {
    match z
    case NotNumeric => None
    case Plain(n) => PointOfNumber(n)
    case Complex(re, im) =>
      if !OffAxis(z) then AxisPoint(re)
      else if CoordinateOf(re).None? || CoordinateOf(im).None? then None
      else Some(Off(CoordinateOf(re).value, CoordinateOf(im).value))
  }

  lemma {:induction false} FloatEqIsSameCoordinate(x: Float, y: Float)
    ensures FloatEq(x, y) <==> CoordinateOf(x).Some? && CoordinateOf(x) == CoordinateOf(y)
  {
  }

  /** The branchy comparison decides exactly whether two values denote one point
      of the extended complex plane; NaN denotes none, and equals nothing. */
  lemma {:induction false} NumbersEqualIsSamePoint(a: Numeric, b: Numeric)
    ensures NumbersEqual(a, b) <==> PointOf(a).Some? && PointOf(a) == PointOf(b)
  {
    if a.Complex? && b.Complex? {
      FloatEqIsSameCoordinate(a.im, b.im);
    }
  }
}
