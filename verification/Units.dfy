/** Units reduced to base units, and quantities compared over them.  Scales and
    exponents are real numbers, so float rounding is idealised away. */
module Units {
  import opened Numbers
  import opened Options

  datatype UnitFactor = UnitFactor(unitId: string, exponent: real)

  datatype UnitTerm = UnitTerm(scaleNum: real, scaleDen: real, factors: seq<UnitFactor>)
  {
    predicate ZeroScale() {
      scaleNum == 0.0 || scaleDen == 0.0
    }

    predicate Whole() {
      IsWhole(scaleNum) && IsWhole(scaleDen)
    }

    function Scaled(magnitude: real): real
      requires !ZeroScale()
    {
      magnitude * (scaleNum / scaleDen)
    }
  }

  predicate IsWhole(f: real) {
    f == f.Floor as real
  }

  // ---------- exponents ----------

  function FactorIds(factors: seq<UnitFactor>): set<string> {
    set f | f in factors :: f.unitId
  }

  /** The exponent the listed factors raise one base unit to altogether. */
  function Total(factors: seq<UnitFactor>, id: string): real {
    if factors == [] then 0.0
    else
      var last := factors[|factors| - 1];
      Total(factors[..|factors| - 1], id) + (if last.unitId == id then last.exponent else 0.0)
  }

  /** The summed exponents, base units that cancel left out. */
  function Exponents(factors: seq<UnitFactor>): map<string, real> {
    map id | id in FactorIds(factors) && Total(factors, id) != 0.0 :: Total(factors, id)
  }

  function Lookup(totals: map<string, real>, id: string): real {
    if id in totals then totals[id] else 0.0
  }

  /** The two loops of exponents(): accumulate every factor, then delete the zeros. */
  method SumExponents(factors: seq<UnitFactor>) returns (totals: map<string, real>)
    ensures totals == Exponents(factors)
  {
    totals := map[];
    for i := 0 to |factors|
      invariant totals.Keys == FactorIds(factors[..i])
      invariant forall id <- totals :: totals[id] == Total(factors[..i], id)
    {
      var f := factors[i];
      assert factors[..i + 1][..i] == factors[..i];
      assert factors[..i + 1] == factors[..i] + [f];
      NotListed(factors[..i], f.unitId);
      totals := totals[f.unitId := Lookup(totals, f.unitId) + f.exponent];
    }
    assert factors[..|factors|] == factors;
    totals := DropZeros(factors, totals);
  }

  method DropZeros(ghost factors: seq<UnitFactor>, sums: map<string, real>) returns (totals: map<string, real>)
    requires sums.Keys == FactorIds(factors) && forall id <- sums :: sums[id] == Total(factors, id)
    ensures totals == Exponents(factors)
  {
    totals := sums;
    var ids := totals.Keys;
    while ids != {}
      invariant ids <= totals.Keys <= FactorIds(factors)
      invariant forall id <- totals :: totals[id] == sums[id]
      invariant forall id <- totals.Keys - ids :: totals[id] != 0.0
      invariant forall id <- sums :: id !in totals ==> sums[id] == 0.0
    {
      var id :| id in ids;
      if totals[id] == 0.0 {
        totals := totals - {id};
      }
      ids := ids - {id};
    }
  }

  lemma {:induction false} NotListed(factors: seq<UnitFactor>, id: string)
    ensures id !in FactorIds(factors) ==> Total(factors, id) == 0.0
  {
    if factors != [] && id !in FactorIds(factors) {
      var last := factors[|factors| - 1];
      assert last in factors && last.unitId in FactorIds(factors);
      assert FactorIds(factors[..|factors| - 1]) <= FactorIds(factors);
      NotListed(factors[..|factors| - 1], id);
    }
  }

  lemma {:induction false} ExponentsAreTotals(factors: seq<UnitFactor>, id: string)
    ensures Lookup(Exponents(factors), id) == Total(factors, id)
  {
    NotListed(factors, id);
  }

  ghost predicate SameTotals(f: seq<UnitFactor>, g: seq<UnitFactor>) {
    forall id: string :: Total(f, id) == Total(g, id)
  }

  /** Equal totals over every base unit are equal exponent maps, and conversely. */
  lemma {:induction false} SameTotalsSameExponents(f: seq<UnitFactor>, g: seq<UnitFactor>)
    ensures SameTotals(f, g) <==> Exponents(f) == Exponents(g)
  {
    var x, y := Exponents(f), Exponents(g);
    forall id: string ensures Lookup(x, id) == Total(f, id) && Lookup(y, id) == Total(g, id) {
      ExponentsAreTotals(f, id);
      ExponentsAreTotals(g, id);
    }
    if SameTotals(f, g) {
      forall id: string ensures id in x <==> id in y {
        assert Total(f, id) == Total(g, id) && Lookup(x, id) == Lookup(y, id);
      }
      assert forall id <- x :: x[id] == Lookup(x, id) && y[id] == Lookup(y, id);
      assert x == y;
    }
  }

  lemma {:induction false} TotalOfConcat(f: seq<UnitFactor>, g: seq<UnitFactor>, id: string)
    ensures Total(f + g, id) == Total(f, id) + Total(g, id)
  {
    if g == [] {
      assert f + g == f;
    } else {
      assert (f + g)[..|f + g| - 1] == f + g[..|g| - 1];
      TotalOfConcat(f, g[..|g| - 1], id);
    }
  }

  /** A reduction is one however its factors are ordered. */
  lemma {:induction false} FactorOrderIsImmaterial(f: seq<UnitFactor>, g: seq<UnitFactor>)
    requires multiset(f) == multiset(g)
    ensures Exponents(f) == Exponents(g)
  {
    forall id ensures Total(f, id) == Total(g, id) {
      PermutedTotal(f, g, id);
    }
    SameTotalsSameExponents(f, g);
  }

  lemma {:induction false} PermutedTotal(f: seq<UnitFactor>, g: seq<UnitFactor>, id: string)
    requires multiset(f) == multiset(g)
    ensures Total(f, id) == Total(g, id)
    decreases |f|
  {
    if f == [] {
      assert |multiset(g)| == |g|;
      assert |multiset(f)| == 0;
    } else {
      var x := f[|f| - 1];
      assert x in multiset(g);
      var i :| 0 <= i < |g| && g[i] == x;
      var before, after := g[..i], g[i + 1..];
      assert g == before + [x] + after;
      assert f == f[..|f| - 1] + [x];
      assert multiset(f[..|f| - 1]) == multiset(f) - multiset{x};
      assert multiset(before + after) == multiset(g) - multiset{x};
      PermutedTotal(f[..|f| - 1], before + after, id);
      TotalOfConcat(before, after, id);
      TotalOfConcat(before + [x], after, id);
      TotalOfConcat(before, [x], id);
      TotalOfConcat(f[..|f| - 1], [x], id);
    }
  }

  /** Factors that cancel change nothing: m/s is m/s·K·K^-1. */
  lemma {:induction false} CancellingFactorsAreImmaterial(f: seq<UnitFactor>, id: string, exponent: real)
    ensures Exponents(f + [UnitFactor(id, exponent), UnitFactor(id, -exponent)]) == Exponents(f)
  {
    var up, down := [UnitFactor(id, exponent)], [UnitFactor(id, -exponent)];
    var pair := [UnitFactor(id, exponent), UnitFactor(id, -exponent)];
    forall other ensures Total(f + pair, other) == Total(f, other) {
      assert pair == up + down;
      TotalOfConcat(f, pair, other);
      TotalOfConcat(up, down, other);
      assert up[..0] == [] && down[..0] == [];
    }
    SameTotalsSameExponents(f + pair, f);
  }

  // ---------- commensurability ----------

  /** As the loop of commensurable() decides it: equally many base units, and
      every one of t's at the same exponent in u, a missing one reading as zero. */
  predicate Commensurable(t: UnitTerm, u: UnitTerm) {
    var x, y := Exponents(t.factors), Exponents(u.factors);
    |x| == |y| && forall id <- x :: Lookup(y, id) == x[id]
  }

  lemma {:induction false} CommensurableIsSameExponents(t: UnitTerm, u: UnitTerm)
    ensures Commensurable(t, u) <==> Exponents(t.factors) == Exponents(u.factors)
  {
    var x, y := Exponents(t.factors), Exponents(u.factors);
    if Commensurable(t, u) {
      assert x.Keys <= y.Keys;
      SubsetOfSameSize(x.Keys, y.Keys);
    }
  }

  lemma {:induction false} SubsetOfSameSize<T>(s: set<T>, t: set<T>)
    requires s <= t && |s| == |t|
    ensures s == t
  {
    if x :| x in t - s {
      assert s <= t - {x};
      SubsetNoLarger(s, t - {x});
    } else {
      assert t - s == {};
    }
  }

  lemma {:induction false} SubsetNoLarger<T>(s: set<T>, t: set<T>)
    requires s <= t
    ensures |s| <= |t|
  {
    if x :| x in s {
      SubsetNoLarger(s - {x}, t - {x});
    }
  }

  /** One reduction at one scale, the ratios compared by cross-multiplying. */
  predicate Same(t: UnitTerm, u: UnitTerm) {
    Commensurable(t, u) && !t.ZeroScale() && !u.ZeroScale() &&
    t.scaleNum * u.scaleDen == u.scaleNum * t.scaleDen
  }

  lemma {:induction false} CrossMultiply(a: real, b: real, c: real, d: real)
    requires b != 0.0 && d != 0.0
    ensures a * d == c * b <==> a / b == c / d
  {
    var p, q := a / b, c / d;
    assert a == p * b && c == q * d;
    assert a * d == p * (b * d) && c * b == q * (b * d);
    if a * d == c * b {
      assert (p - q) * (b * d) == 0.0;
      NoZeroDivisors(b, d);
      NoZeroDivisors(p - q, b * d);
    }
  }

  lemma {:induction false} NoZeroDivisors(x: real, y: real)
    requires y != 0.0
    ensures x * y == 0.0 <==> x == 0.0
  {
  }

  /** Same is equality of what a term reduces to. */
  lemma {:induction false} SameIsSameReduction(t: UnitTerm, u: UnitTerm)
    ensures Same(t, u) <==>
            !t.ZeroScale() && !u.ZeroScale() &&
            Exponents(t.factors) == Exponents(u.factors) &&
            t.scaleNum / t.scaleDen == u.scaleNum / u.scaleDen
  {
    CommensurableIsSameExponents(t, u);
    if !t.ZeroScale() && !u.ZeroScale() {
      CrossMultiply(t.scaleNum, t.scaleDen, u.scaleNum, u.scaleDen);
    }
  }

  // ---------- quantities ----------

  datatype Quantity = Quantity(magnitude: Option<Number>, unit: string, term: Option<UnitTerm>)

  function MagnitudeOf(q: Quantity): Numeric {
    if q.magnitude.None? then NotNumeric else Plain(q.magnitude.value)
  }

  /** baseMagnitude: magnitude times num over den; no magnitude reads as zero. */
  function BaseMagnitude(q: Quantity): Float
    requires q.term.Some? && !q.term.value.ZeroScale()
  {
    var t := q.term.value;
    match q.magnitude
    case None => Finite(0.0)
    case Some(Real(NaN)) => NaN
    case Some(Real(Infinite(negative))) => Infinite(negative != (t.scaleNum / t.scaleDen < 0.0))
    case Some(Real(x)) => Finite(x.Num() * t.scaleNum / t.scaleDen)
    case Some(n) => Finite(ExactOf(n).value * t.scaleNum / t.scaleDen)
  }

  /** Both magnitudes over the base units when both are exact and both scales whole. */
  function ExactBaseMagnitudes(a: Quantity, b: Quantity): Option<(real, real)>
    requires a.term.Some? && !a.term.value.ZeroScale()
    requires b.term.Some? && !b.term.value.ZeroScale()
  {
    var x, y := ExactOfNumeric(MagnitudeOf(a)), ExactOfNumeric(MagnitudeOf(b));
    if x.None? || y.None? || !a.term.value.Whole() || !b.term.value.Whole() then None
    else Some((a.term.value.Scaled(x.value), b.term.value.Scaled(y.value)))
  }

  predicate QuantityEqual(a: Quantity, b: Quantity) {
    if a.term.None? || b.term.None? then
      NumbersEqual(MagnitudeOf(a), MagnitudeOf(b)) && a.unit == b.unit && a.term.None? && b.term.None?
    else if !Commensurable(a.term.value, b.term.value) || a.term.value.ZeroScale() || b.term.value.ZeroScale() then
      false
    else match ExactBaseMagnitudes(a, b)
      case Some((x, y)) => x == y
      case None => FloatEq(BaseMagnitude(a), BaseMagnitude(b))
  }

  /** What a quantity denotes: unreduced, a number in a unit as written; reduced,
      a magnitude over base units. */
  datatype Amount =
    | Unreduced(point: Point, unit: string)
    | Reduced(exponents: map<string, real>, magnitude: Coordinate)

  function AmountOf(q: Quantity): Option<Amount> {
    match q.term
    case None =>
      var p := PointOf(MagnitudeOf(q));
      if p.None? then None else Some(Unreduced(p.value, q.unit))
    case Some(t) =>
      if t.ZeroScale() then None
      else
        var c := CoordinateOf(BaseMagnitude(q));
        if c.None? then None else Some(Reduced(Exponents(t.factors), c.value))
  }

  lemma {:induction false} MultiplyThenDivide(m: real, num: real, den: real)
    requires den != 0.0
    ensures m * (num / den) == m * num / den
  {
    var r := num / den;
    assert num == r * den;
    assert m * num == (m * r) * den;
  }

  lemma {:induction false} ScaledIsBaseMagnitude(q: Quantity)
    requires q.term.Some? && !q.term.value.ZeroScale() && ExactOfNumeric(MagnitudeOf(q)).Some?
    ensures BaseMagnitude(q) == Finite(q.term.value.Scaled(ExactOfNumeric(MagnitudeOf(q)).value))
  {
    MultiplyThenDivide(ExactOfNumeric(MagnitudeOf(q)).value, q.term.value.scaleNum, q.term.value.scaleDen);
  }

  /** The exact branch and the float branch agree. */
  lemma {:induction false} BranchesAgree(a: Quantity, b: Quantity)
    requires a.term.Some? && !a.term.value.ZeroScale()
    requires b.term.Some? && !b.term.value.ZeroScale()
    requires ExactBaseMagnitudes(a, b).Some?
    ensures var (x, y) := ExactBaseMagnitudes(a, b).value;
            x == y <==> FloatEq(BaseMagnitude(a), BaseMagnitude(b))
  {
    ScaledIsBaseMagnitude(a);
    ScaledIsBaseMagnitude(b);
  }

  /** Quantities are equal exactly when they denote one amount. */
  lemma {:induction false} QuantityEqualIsSameAmount(a: Quantity, b: Quantity)
    ensures QuantityEqual(a, b) <==> AmountOf(a).Some? && AmountOf(a) == AmountOf(b)
  {
    if a.term.None? || b.term.None? {
      NumbersEqualIsSamePoint(MagnitudeOf(a), MagnitudeOf(b));
    } else {
      CommensurableIsSameExponents(a.term.value, b.term.value);
      if !a.term.value.ZeroScale() && !b.term.value.ZeroScale() {
        FloatEqIsSameCoordinate(BaseMagnitude(a), BaseMagnitude(b));
        if ExactBaseMagnitudes(a, b).Some? {
          BranchesAgree(a, b);
        }
      }
    }
  }

  // ---------- measurement references ----------

  datatype Reference = Reference(unit: string, term: Option<UnitTerm>, unitId: string)

  predicate ReferenceEqual(a: Reference, b: Reference) {
    if a.term.None? || b.term.None? then
      a.unit == b.unit && a.unitId == b.unitId && a.term.None? && b.term.None?
    else if !Same(a.term.value, b.term.value) then
      false
    else if |Exponents(a.term.value.factors)| == 0 && (a.unitId != "" || b.unitId != "") then
      a.unitId == b.unitId
    else
      true
  }

  /** What a reference denotes; only one of dimension one keeps its declaration. */
  datatype Measure =
    | Named(unit: string, unitId: string)
    | Scale(exponents: map<string, real>, ratio: real, dimensionless: string)

  function MeasureOf(r: Reference): Option<Measure> {
    match r.term
    case None => Some(Named(r.unit, r.unitId))
    case Some(t) =>
      if t.ZeroScale() then None
      else
        var e := Exponents(t.factors);
        Some(Scale(e, t.scaleNum / t.scaleDen, if |e| == 0 then r.unitId else ""))
  }

  lemma {:induction false} ReferenceEqualIsSameMeasure(a: Reference, b: Reference)
    ensures ReferenceEqual(a, b) <==> MeasureOf(a).Some? && MeasureOf(a) == MeasureOf(b)
  {
    if a.term.Some? && b.term.Some? {
      SameIsSameReduction(a.term.value, b.term.value);
    }
  }
}
