/** The protobuf messages a value crosses in, and the checks both sides share. */
module Wire {
  import opened Numbers
  import opened Options
  import opened Units
  import opened Decimal

  datatype Result<+T> = Ok(value: T) | Err(message: string)

  datatype Magnitude =
    | NoMagnitude
    | IntMagnitude(i: Int64)
    | BigIntMagnitude(digits: string)
    | RationalMagnitude(numerator: string, denominator: string)
    | RealMagnitude(x: Float)

  /** A unit term crosses field by field, so the wire's is the same record. */
  datatype WireQuantity = WireQuantity(magnitude: Magnitude, unit: string, term: Option<UnitTerm>)

  /** One constructor per arm; WNil is the nil message, WUnknown one with no arm
      this client reads (a newer service's, or the unbounded value). */
  datatype Wire =
    | WNil
    | WUnknown
    | WInt(i: Int64)
    | WBigInt(digits: string)
    | WRational(numerator: string, denominator: string)
    | WReal(x: Float)
    | WComplex(re: Float, im: Float)
    | WBool(b: bool)
    | WString(text: string)
    | WInstanceId(id: Int64)
    | WSequence(elements: seq<Wire>)
    | WNull(reason: string)
    | WUnset
    | WUndetermined(why: string, countLower: string, countUpper: string)
    | WQuantity(quantity: WireQuantity)
    | WEnumLiteral(literalId: string, enumerationId: string, name: string, scalar: Wire)
    | WArray(dimensions: seq<Int64>, elements: seq<Wire>)
    | WVector(elements: seq<Wire>)
    | WVectorQuantity(axes: seq<WireQuantity>)
    | WMeasurementRef(ref: Reference)
    | WFunction(calcId: string, self: Int64)
    | WSet(elements: seq<Wire>)
    | WTensorQuantity(dimensions: seq<Int64>, quantities: seq<WireQuantity>)
    | WMetaobject(elementId: string, metaclassId: string)

  // ---------- shapes ----------

  function Product(dimensions: seq<Int64>): int {
    if dimensions == [] then 1
    else Product(dimensions[..|dimensions| - 1]) * dimensions[|dimensions| - 1]
  }

  /** What the shape check promises: positive extents that the count fills. */
  predicate Fills(dimensions: seq<Int64>, count: nat) {
    (forall i | 0 <= i < |dimensions| :: dimensions[i] >= 1) &&
    Product(dimensions) == count && count <= MAX_INT64
  }

  /** checkShape: the product is taken within int64, an overflow refused before
      it happens, so it decides Fills without ever wrapping. */
  method CheckShape(dimensions: seq<Int64>, count: nat) returns (ok: bool)
    ensures ok <==> Fills(dimensions, count)
  {
    var size: Int64 := 1;
    for i := 0 to |dimensions|
      invariant forall j | 0 <= j < i :: dimensions[j] >= 1
      invariant 1 <= size == Product(dimensions[..i]) <= MAX_INT64
    {
      var d := dimensions[i];
      assert dimensions[..i + 1][..i] == dimensions[..i];
      if d < 1 {
        return false;
      }
      if size > MAX_INT64 / d {
        assert size * d > MAX_INT64 by { Overflows(size, d); }
        assert Product(dimensions[..i + 1]) == size * d;
        ghost var allPositive := forall j | 0 <= j < |dimensions| :: dimensions[j] >= 1;
        if allPositive {
          PrefixProduct(dimensions, i + 1);
        }
        return false;
      }
      assert size * d <= MAX_INT64 by { Fits(size, d); }
      assert size * d >= 1 by { Grows(size, d); }
      size := size * d;
    }
    assert dimensions[..|dimensions|] == dimensions;
    return size == count;
  }

  lemma {:induction false} Overflows(size: int, d: int)
    requires d >= 1 && size > MAX_INT64 / d
    ensures size * d > MAX_INT64
  {
    var q := MAX_INT64 / d;
    assert MAX_INT64 < q * d + d;
    assert (size - q - 1) * d >= 0 by { NonNegativeProduct(size - q - 1, d); }
    assert size * d == (size - q - 1) * d + q * d + d;
  }

  lemma {:induction false} Fits(size: int, d: int)
    requires d >= 1 && 0 <= size <= MAX_INT64 / d
    ensures size * d <= MAX_INT64
  {
    var q := MAX_INT64 / d;
    assert q * d <= MAX_INT64;
    assert (q - size) * d >= 0 by { NonNegativeProduct(q - size, d); }
    assert size * d == q * d - (q - size) * d;
  }

  lemma {:induction false} NonNegativeProduct(x: int, y: int)
    requires x >= 0 && y >= 0
    ensures x * y >= 0
  {
  }

  lemma {:induction false} Grows(size: int, d: int)
    requires size >= 1 && d >= 1
    ensures size * d >= size
  {
  }

  lemma {:induction false} PrefixProduct(dimensions: seq<Int64>, i: nat)
    requires i <= |dimensions| && forall j | 0 <= j < |dimensions| :: dimensions[j] >= 1
    ensures 1 <= Product(dimensions[..i]) <= Product(dimensions)
    decreases |dimensions|
  {
    if i == |dimensions| {
      assert dimensions[..i] == dimensions;
      if i > 0 {
        PrefixProduct(dimensions[..i - 1], i - 1);
        assert dimensions[..i - 1][..i - 1] == dimensions[..i - 1];
        Grows(Product(dimensions[..i - 1]), dimensions[i - 1]);
      }
    } else {
      var shorter := dimensions[..|dimensions| - 1];
      PrefixProduct(shorter, i);
      assert shorter[..i] == dimensions[..i];
      Grows(Product(shorter), dimensions[|dimensions| - 1]);
    }
  }

  // ---------- rationals ----------

  function Gcd(a: nat, b: nat): nat
    decreases b
  {
    if b == 0 then a else Gcd(b, a % b)
  }

  function Abs(n: int): nat {
    if n < 0 then -n else n
  }

  predicate LowestTerms(num: int, den: Positive) {
    Gcd(Abs(num), den) == 1
  }

  /** mantissa times two to the exponent. */
  function Dyadic(mantissa: int, exponent: int): real
    decreases Abs(exponent)
  {
    if exponent > 0 then 2.0 * Dyadic(mantissa, exponent - 1)
    else if exponent < 0 then Dyadic(mantissa, exponent + 1) / 2.0
    else mantissa as real
  }

  /** Some binary64 is exactly num/den: a 53-bit mantissa at a binary exponent. */
  predicate HeldByDouble(num: int, den: Positive) {
    exists mantissa: int, exponent: int |
      -0x20_0000_0000_0000 < mantissa < 0x20_0000_0000_0000 && -1074 <= exponent <= 971 ::
      Dyadic(mantissa, exponent) == num as real / den as real
  }

  datatype Fraction = Fraction(num: int, den: Positive)

  /** Two decimals spelling a rational in lowest terms over a positive denominator. */
  function LowestTermsRational(numerator: string, denominator: string): Option<Fraction> {
    var num, den := Parse(numerator), Parse(denominator);
    if num.None? || den.None? || den.value < 1 then None
    else if !LowestTerms(num.value, den.value) then None
    else Some(Fraction(num.value, den.value))
  }

  /** That, refusing one a binary64 holds, which crosses as the binary64. */
  function CanonicalRational(numerator: string, denominator: string): Option<Fraction> {
    match LowestTermsRational(numerator, denominator)
    case None => None
    case Some(q) => if HeldByDouble(q.num, q.den) then None else Some(q)
  }

  lemma {:induction false} SpelledRational(num: int, den: Positive)
    ensures LowestTermsRational(Print(num), Print(den)) ==
            if LowestTerms(num, den) then Some(Fraction(num, den)) else None
  {
    ParsePrint(num);
    ParsePrint(den);
  }
}
