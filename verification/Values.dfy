/** The client's Value sum and its model equality.  Equal is shown to be equality
    of meanings, from which every law of equality and of sets follows. */
module Values {
  import opened Numbers
  import opened Options
  import opened Units

  datatype Value =
    | Nil
    | Num(num: Number)
    | ComplexValue(re: Float, im: Float)
    | Bool(b: bool)
    | String(text: string)
    | InstanceID(id: Int64)
    | Sequence(elements: seq<Value>)
    | Null(reason: string)
    | Unset
    | Undetermined(why: string, countLower: string, countUpper: string)
    | QuantityValue(quantity: Quantity)
    | EnumLiteral(literalId: string, enumerationId: string, name: string, scalar: Value)
    | Array(dimensions: seq<Int64>, elements: seq<Value>)
    | Vector(components: seq<Option<Number>>)
    | VectorQuantity(axes: seq<Quantity>)
    | MeasurementRef(ref: Reference)
    | Function(calcId: string, self: Int64)
    | Set(elements: seq<Value>)
    | TensorQuantity(dimensions: seq<Int64>, quantities: seq<Quantity>)
    | Metaobject(elementId: string, metaclassId: string)

  function Size(v: Value): nat
    decreases v
  {
    match v
    case Sequence(s) => 1 + SizeAll(s)
    case Set(s) => 1 + SizeAll(s)
    case Array(_, s) => 1 + SizeAll(s)
    case EnumLiteral(_, _, _, scalar) => 1 + Size(scalar)
    case _ => 1
  }

  function SizeAll(s: seq<Value>): nat
    decreases s
  {
    if s == [] then 0 else 1 + Size(s[0]) + SizeAll(s[1..])
  }

  /** Nothing at all: a null, whatever its reason, or a list or set that is empty. */
  predicate Empty(v: Value) {
    v.Null? || ((v.Sequence? || v.Set?) && v.elements == [])
  }

  function NumericOf(v: Value): Numeric {
    match v
    case Num(n) => Plain(n)
    case ComplexValue(re, im) => Complex(re, im)
    case _ => NotNumeric
  }

  function NumericOfComponent(c: Option<Number>): Numeric {
    if c.None? then NotNumeric else Plain(c.value)
  }

  predicate Equal(a: Value, b: Value)
    decreases Size(a) + Size(b)
  {
    if Empty(a) || Empty(b) then Empty(a) && Empty(b)
    else match a
      case Num(_) => NumbersEqual(NumericOf(a), NumericOf(b))
      case ComplexValue(_, _) => NumbersEqual(NumericOf(a), NumericOf(b))
      case Sequence(x) => b.Sequence? && AllEqual(x, b.elements)
      case Set(x) => b.Set? && SubsetOf(x, b.elements) && SubsetOf(b.elements, x)
      case Array(d, x) => b.Array? && d == b.dimensions && AllEqual(x, b.elements)
      case Vector(x) => b.Vector? && ComponentsEqual(x, b.components)
      case VectorQuantity(x) => b.VectorQuantity? && QuantitiesEqual(x, b.axes)
      case TensorQuantity(d, x) => b.TensorQuantity? && d == b.dimensions && QuantitiesEqual(x, b.quantities)
      case QuantityValue(x) => b.QuantityValue? && QuantityEqual(x, b.quantity)
      case MeasurementRef(x) => b.MeasurementRef? && ReferenceEqual(x, b.ref)
      case EnumLiteral(x, _, _, _) => b.EnumLiteral? && x == b.literalId
      case Metaobject(x, _) => b.Metaobject? && x == b.elementId
      case _ => a == b
  }

  predicate AllEqual(x: seq<Value>, y: seq<Value>)
    decreases SizeAll(x) + SizeAll(y)
  {
    |x| == |y| && (x == [] || (Equal(x[0], y[0]) && AllEqual(x[1..], y[1..])))
  }

  predicate Contains(s: seq<Value>, v: Value)
    decreases SizeAll(s) + Size(v)
  {
    s != [] && (Equal(s[0], v) || Contains(s[1..], v))
  }

  predicate SubsetOf(s: seq<Value>, t: seq<Value>)
    decreases SizeAll(s) + SizeAll(t)
  {
    s == [] || (Contains(t, s[0]) && SubsetOf(s[1..], t))
  }

  predicate ComponentsEqual(x: seq<Option<Number>>, y: seq<Option<Number>>) {
    |x| == |y| &&
    forall i | 0 <= i < |x| :: NumbersEqual(NumericOfComponent(x[i]), NumericOfComponent(y[i]))
  }

  predicate QuantitiesEqual(x: seq<Quantity>, y: seq<Quantity>) {
    |x| == |y| && forall i | 0 <= i < |x| :: QuantityEqual(x[i], y[i])
  }

  /** Some position holds a member an earlier one already is. */
  predicate Repeats(s: seq<Value>) {
    exists i | 0 <= i < |s| :: Contains(s[..i], s[i])
  }

  /** The loop of repeated(): the first member listed twice, if any. */
  method Repeated(s: seq<Value>) returns (twice: Option<Value>)
    ensures twice.Some? <==> Repeats(s)
    ensures twice.Some? ==> exists i | 0 <= i < |s| ::
                              twice.value == s[i] && Contains(s[..i], s[i]) && !Repeats(s[..i])
  {
    for i := 0 to |s|
      invariant forall j | 0 <= j < i :: !Contains(s[..j], s[j])
    {
      if Contains(s[..i], s[i]) {
        assert forall j | 0 <= j < i :: s[..i][..j] == s[..j];
        return Some(s[i]);
      }
    }
    return None;
  }

  // ---------- meanings ----------

  /** What a value is to the model, whatever it is written as.  Order is gone
      from a set, spelling from numbers and quantities, the reason from a null. */
  datatype Meaning =
    | Absent
    | Number(point: Point)
    | Ordered(items: seq<Meaning>)
    | Unordered(members: set<Meaning>)
    | Shaped(dimensions: seq<Int64>, items: seq<Meaning>)
    | Components(points: seq<Point>)
    | Amounts(amounts: seq<Amount>)
    | Tensor(dimensions: seq<Int64>, amounts: seq<Amount>)
    | Single(amount: Amount)
    | Unit(measure: Measure)
    | Literal(literalId: string)
    | Reflected(elementId: string)
    | Itself(value: Value)

  /** What a value means; None for one that is not even equal to itself. */
  function MeaningOf(v: Value): Option<Meaning>
    decreases v
  {
    if Empty(v) then Some(Absent)
    else match v
      case Num(_) => Numerical(NumericOf(v))
      case ComplexValue(_, _) => Numerical(NumericOf(v))
      case Sequence(x) => if AllMeaning(x) then Some(Ordered(MeaningsOf(x))) else None
      case Set(x) => if AllMeaning(x) then Some(Unordered(MemberMeanings(x))) else None
      case Array(d, x) => if AllMeaning(x) then Some(Shaped(d, MeaningsOf(x))) else None
      case Vector(x) =>
        if forall i | 0 <= i < |x| :: PointOf(NumericOfComponent(x[i])).Some?
        then Some(Components(PointsOf(x))) else None
      case VectorQuantity(x) => if HaveAmounts(x) then Some(Amounts(AmountsOf(x))) else None
      case TensorQuantity(d, x) => if HaveAmounts(x) then Some(Tensor(d, AmountsOf(x))) else None
      case QuantityValue(x) => if AmountOf(x).Some? then Some(Single(AmountOf(x).value)) else None
      case MeasurementRef(x) => if MeasureOf(x).Some? then Some(Unit(MeasureOf(x).value)) else None
      case EnumLiteral(x, _, _, _) => Some(Literal(x))
      case Metaobject(x, _) => Some(Reflected(x))
      case _ => Some(Itself(v))
  }

  function Numerical(z: Numeric): Option<Meaning> {
    if PointOf(z).None? then None else Some(Number(PointOf(z).value))
  }

  predicate AllMeaning(s: seq<Value>)
    decreases s, 0
  {
    forall i | 0 <= i < |s| :: MeaningOf(s[i]).Some?
  }

  function MeaningsOf(s: seq<Value>): (m: seq<Meaning>)
    requires AllMeaning(s)
    ensures |m| == |s| && forall i | 0 <= i < |s| :: Some(m[i]) == MeaningOf(s[i])
    decreases s, 1
  {
    seq(|s|, i requires 0 <= i < |s| => MeaningOf(s[i]).value)
  }

  function MemberMeanings(s: seq<Value>): (m: set<Meaning>)
    requires AllMeaning(s)
    ensures forall x :: x in m <==> exists i | 0 <= i < |s| :: MeaningOf(s[i]) == Some(x)
    decreases s, 2
  {
    var items := MeaningsOf(s);
    set x | x in items
  }

  function PointsOf(x: seq<Option<Number>>): (p: seq<Point>)
    requires forall i | 0 <= i < |x| :: PointOf(NumericOfComponent(x[i])).Some?
    ensures |p| == |x| && forall i | 0 <= i < |x| :: Some(p[i]) == PointOf(NumericOfComponent(x[i]))
  {
    seq(|x|, i requires 0 <= i < |x| => PointOf(NumericOfComponent(x[i])).value)
  }

  predicate HaveAmounts(x: seq<Quantity>) {
    forall i | 0 <= i < |x| :: AmountOf(x[i]).Some?
  }

  function AmountsOf(x: seq<Quantity>): (p: seq<Amount>)
    requires HaveAmounts(x)
    ensures |p| == |x| && forall i | 0 <= i < |x| :: Some(p[i]) == AmountOf(x[i])
  {
    seq(|x|, i requires 0 <= i < |x| => AmountOf(x[i]).value)
  }

  // ---------- equality is sameness of meaning ----------

  predicate SameMeaning(a: Value, b: Value) {
    MeaningOf(a).Some? && MeaningOf(a) == MeaningOf(b)
  }

  /** Equal decides exactly whether two values mean the same. */
  lemma {:induction false} EqualIsSameMeaning(a: Value, b: Value)
    ensures Equal(a, b) <==> SameMeaning(a, b)
    decreases Size(a) + Size(b)
  {
    if Empty(a) || Empty(b) {
      EmptyEqualIsSameMeaning(a, b);
    } else if a.Sequence? && b.Sequence? {
      AllEqualIsPointwise(a.elements, b.elements);
      SequenceEqualIsSameMeaning(a.elements, b.elements);
    } else if a.Array? && b.Array? {
      AllEqualIsPointwise(a.elements, b.elements);
      ArrayEqualIsSameMeaning(a.dimensions, a.elements, b.dimensions, b.elements);
    } else if a.Set? && b.Set? {
      SubsetIsMeaningSubset(a.elements, b.elements);
      SubsetIsMeaningSubset(b.elements, a.elements);
      SetEqualIsSameMeaning(a.elements, b.elements);
    } else if a.Sequence? || a.Array? || a.Set? {
      CollectionsApart(a, b);
    } else {
      FlatEqualIsSameMeaning(a, b);
    }
  }

  lemma {:induction false} EmptyEqualIsSameMeaning(a: Value, b: Value)
    requires Empty(a) || Empty(b)
    ensures Equal(a, b) <==> SameMeaning(a, b)
  {
    OnlyEmptyIsAbsent(a);
    OnlyEmptyIsAbsent(b);
  }

  lemma {:induction false} OnlyEmptyIsAbsent(v: Value)
    ensures MeaningOf(v) == Some(Absent) <==> Empty(v)
  {
  }

  lemma {:induction false} SequenceEqualIsSameMeaning(x: seq<Value>, y: seq<Value>)
    requires x != [] && y != [] && (AllEqual(x, y) <==> Pointwise(x, y))
    ensures Equal(Sequence(x), Sequence(y)) <==> SameMeaning(Sequence(x), Sequence(y))
  {
    SameMeanings(x, y);
  }

  lemma {:induction false} ArrayEqualIsSameMeaning(d: seq<Int64>, x: seq<Value>, e: seq<Int64>, y: seq<Value>)
    requires AllEqual(x, y) <==> Pointwise(x, y)
    ensures Equal(Array(d, x), Array(e, y)) <==> SameMeaning(Array(d, x), Array(e, y))
  {
    SameMeanings(x, y);
  }

  lemma {:induction false} SetEqualIsSameMeaning(x: seq<Value>, y: seq<Value>)
    requires x != [] && y != []
    requires SubsetOf(x, y) <==> MeansSubset(x, y)
    requires SubsetOf(y, x) <==> MeansSubset(y, x)
    ensures Equal(Set(x), Set(y)) <==> SameMeaning(Set(x), Set(y))
  {
    SetsAreEqualAsSubsets(x, y);
    SetMeaning(x);
    SetMeaning(y);
    SameMembers(x, y);
  }

  lemma {:induction false} SetsAreEqualAsSubsets(x: seq<Value>, y: seq<Value>)
    requires x != [] && y != []
    ensures Equal(Set(x), Set(y)) <==> SubsetOf(x, y) && SubsetOf(y, x)
  {
  }

  lemma {:induction false} SetMeaning(x: seq<Value>)
    requires x != []
    ensures MeaningOf(Set(x)) == if AllMeaning(x) then Some(Unordered(MemberMeanings(x))) else None
  {
  }

  lemma {:induction false} CollectionsApart(a: Value, b: Value)
    requires !Empty(a) && !Empty(b)
    requires a.Sequence? || a.Array? || a.Set?
    requires !(a.Sequence? && b.Sequence?) && !(a.Array? && b.Array?) && !(a.Set? && b.Set?)
    ensures !Equal(a, b) && !SameMeaning(a, b)
  {
  }

  lemma {:induction false} FlatEqualIsSameMeaning(a: Value, b: Value)
    requires !Empty(a) && !Empty(b)
    requires !a.Sequence? && !a.Array? && !a.Set?
    ensures Equal(a, b) <==> SameMeaning(a, b)
  {
    if a.Num? || a.ComplexValue? {
      NumericEqualIsSameMeaning(a, b);
    } else if a.Vector? || a.VectorQuantity? || a.TensorQuantity? {
      ListEqualIsSameMeaning(a, b);
    } else if a.QuantityValue? || a.MeasurementRef? {
      UnitEqualIsSameMeaning(a, b);
    } else {
      NamedEqualIsSameMeaning(a, b);
    }
  }

  lemma {:induction false} UnitEqualIsSameMeaning(a: Value, b: Value)
    requires !Empty(b)
    requires a.QuantityValue? || a.MeasurementRef?
    ensures Equal(a, b) <==> SameMeaning(a, b)
  {
    if a.QuantityValue? && b.QuantityValue? {
      QuantityEqualIsSameAmount(a.quantity, b.quantity);
    } else if a.MeasurementRef? && b.MeasurementRef? {
      ReferenceEqualIsSameMeasure(a.ref, b.ref);
    }
  }

  /** Literals and metaobjects are their identifiers; what is left is itself. */
  lemma {:induction false} NamedEqualIsSameMeaning(a: Value, b: Value)
    requires !Empty(a) && !Empty(b)
    requires !a.Sequence? && !a.Array? && !a.Set? && !a.Num? && !a.ComplexValue? && !a.Vector?
    requires !a.VectorQuantity? && !a.TensorQuantity? && !a.QuantityValue? && !a.MeasurementRef?
    ensures Equal(a, b) <==> SameMeaning(a, b)
  {
  }

  lemma {:induction false} NumericEqualIsSameMeaning(a: Value, b: Value)
    requires !Empty(b)
    requires a.Num? || a.ComplexValue?
    ensures Equal(a, b) <==> SameMeaning(a, b)
  {
    NumbersEqualIsSamePoint(NumericOf(a), NumericOf(b));
  }

  lemma {:induction false} ListEqualIsSameMeaning(a: Value, b: Value)
    requires !Empty(b)
    requires a.Vector? || a.VectorQuantity? || a.TensorQuantity?
    ensures Equal(a, b) <==> SameMeaning(a, b)
  {
    if a.Vector? && b.Vector? {
      VectorEqualIsSameMeaning(a.components, b.components);
    } else if a.VectorQuantity? && b.VectorQuantity? {
      VectorQuantityEqualIsSameMeaning(a.axes, b.axes);
    } else if a.TensorQuantity? && b.TensorQuantity? {
      TensorEqualIsSameMeaning(a.dimensions, a.quantities, b.dimensions, b.quantities);
    }
  }

  lemma {:induction false} VectorQuantityEqualIsSameMeaning(x: seq<Quantity>, y: seq<Quantity>)
    ensures Equal(VectorQuantity(x), VectorQuantity(y)) <==> SameMeaning(VectorQuantity(x), VectorQuantity(y))
  {
    SameQuantities(x, y);
  }

  lemma {:induction false} TensorEqualIsSameMeaning(d: seq<Int64>, x: seq<Quantity>, e: seq<Int64>, y: seq<Quantity>)
    ensures Equal(TensorQuantity(d, x), TensorQuantity(e, y)) <==>
            SameMeaning(TensorQuantity(d, x), TensorQuantity(e, y))
  {
    SameQuantities(x, y);
  }

  lemma {:induction false} VectorEqualIsSameMeaning(x: seq<Option<Numbers.Number>>, y: seq<Option<Numbers.Number>>)
    ensures Equal(Vector(x), Vector(y)) <==> SameMeaning(Vector(x), Vector(y))
  {
    SameComponents(x, y);
  }

  predicate Pointwise(x: seq<Value>, y: seq<Value>) {
    |x| == |y| && forall i | 0 <= i < |x| :: SameMeaning(x[i], y[i])
  }

  lemma {:induction false} AllEqualIsPointwise(x: seq<Value>, y: seq<Value>)
    ensures AllEqual(x, y) <==> Pointwise(x, y)
    decreases SizeAll(x) + SizeAll(y)
  {
    if |x| == |y| && x != [] {
      EqualIsSameMeaning(x[0], y[0]);
      AllEqualIsPointwise(x[1..], y[1..]);
      if Pointwise(x, y) {
        assert Pointwise(x[1..], y[1..]);
      }
      if SameMeaning(x[0], y[0]) && Pointwise(x[1..], y[1..]) {
        forall i | 0 <= i < |x| ensures SameMeaning(x[i], y[i]) {
          assert i > 0 ==> SameMeaning(x[1..][i - 1], y[1..][i - 1]);
        }
      }
    }
  }

  lemma {:induction false} SameMeanings(x: seq<Value>, y: seq<Value>)
    ensures Pointwise(x, y) <==> AllMeaning(x) && AllMeaning(y) && MeaningsOf(x) == MeaningsOf(y)
  {
    if Pointwise(x, y) {
      assert forall i | 0 <= i < |x| :: SameMeaning(x[i], y[i]);
      assert AllMeaning(x) && AllMeaning(y);
      assert MeaningsOf(x) == MeaningsOf(y);
    }
  }

  predicate MeansMember(s: seq<Value>, v: Value) {
    exists i | 0 <= i < |s| :: SameMeaning(s[i], v)
  }

  /** A set contains a value when some member means the same. */
  lemma {:induction false} ContainsIsMeansMember(s: seq<Value>, v: Value)
    ensures Contains(s, v) <==> MeansMember(s, v)
    decreases SizeAll(s) + Size(v)
  {
    if s != [] {
      EqualIsSameMeaning(s[0], v);
      ContainsIsMeansMember(s[1..], v);
      if MeansMember(s[1..], v) {
        var i :| 0 <= i < |s[1..]| && SameMeaning(s[1..][i], v);
        assert SameMeaning(s[i + 1], v);
      }
      if MeansMember(s, v) && !SameMeaning(s[0], v) {
        var i :| 0 <= i < |s| && SameMeaning(s[i], v);
        assert SameMeaning(s[1..][i - 1], v);
      }
    }
  }

  predicate MeansSubset(s: seq<Value>, t: seq<Value>) {
    forall i | 0 <= i < |s| :: MeansMember(t, s[i])
  }

  lemma {:induction false} SubsetIsMeaningSubset(s: seq<Value>, t: seq<Value>)
    ensures SubsetOf(s, t) <==> MeansSubset(s, t)
    decreases SizeAll(s) + SizeAll(t)
  {
    if s != [] {
      ContainsIsMeansMember(t, s[0]);
      SubsetIsMeaningSubset(s[1..], t);
      if MeansSubset(s, t) {
        assert forall i | 0 <= i < |s[1..]| :: s[1..][i] == s[i + 1];
      }
      if MeansMember(t, s[0]) && MeansSubset(s[1..], t) {
        forall i | 0 <= i < |s| ensures MeansMember(t, s[i]) {
          assert i > 0 ==> s[1..][i - 1] == s[i];
        }
      }
    }
  }

  lemma {:induction false} SameMembers(x: seq<Value>, y: seq<Value>)
    ensures MeansSubset(x, y) && MeansSubset(y, x) <==>
            AllMeaning(x) && AllMeaning(y) && MemberMeanings(x) == MemberMeanings(y)
  {
    if MeansSubset(x, y) && MeansSubset(y, x) {
      forall i | 0 <= i < |x| ensures MeaningOf(x[i]).Some? {
        assert MeansMember(y, x[i]);
      }
      forall i | 0 <= i < |y| ensures MeaningOf(y[i]).Some? {
        assert MeansMember(x, y[i]);
      }
      MeaningSubset(x, y);
      MeaningSubset(y, x);
    }
    if AllMeaning(x) && AllMeaning(y) && MemberMeanings(x) == MemberMeanings(y) {
      forall i | 0 <= i < |x| ensures MeansMember(y, x[i]) {
        assert MeaningOf(x[i]).value in MemberMeanings(y);
      }
      forall i | 0 <= i < |y| ensures MeansMember(x, y[i]) {
        assert MeaningOf(y[i]).value in MemberMeanings(x);
      }
    }
  }

  lemma {:induction false} MeaningSubset(x: seq<Value>, y: seq<Value>)
    requires AllMeaning(x) && AllMeaning(y) && MeansSubset(x, y)
    ensures MemberMeanings(x) <= MemberMeanings(y)
  {
    forall m | m in MemberMeanings(x) ensures m in MemberMeanings(y) {
      var i :| 0 <= i < |x| && MeaningOf(x[i]) == Some(m);
      assert MeansMember(y, x[i]);
    }
  }

  lemma {:induction false} SameComponents(x: seq<Option<Number>>, y: seq<Option<Number>>)
    ensures ComponentsEqual(x, y) <==>
            (forall i | 0 <= i < |x| :: PointOf(NumericOfComponent(x[i])).Some?) &&
            (forall i | 0 <= i < |y| :: PointOf(NumericOfComponent(y[i])).Some?) &&
            PointsOf(x) == PointsOf(y)
  {
    forall i | 0 <= i < |x| && i < |y|
      ensures NumbersEqual(NumericOfComponent(x[i]), NumericOfComponent(y[i])) <==>
              PointOf(NumericOfComponent(x[i])).Some? &&
              PointOf(NumericOfComponent(x[i])) == PointOf(NumericOfComponent(y[i]))
    {
      NumbersEqualIsSamePoint(NumericOfComponent(x[i]), NumericOfComponent(y[i]));
    }
    if ComponentsEqual(x, y) {
      assert forall i | 0 <= i < |x| :: NumbersEqual(NumericOfComponent(x[i]), NumericOfComponent(y[i]));
      assert PointsOf(x) == PointsOf(y);
    } else if |x| == |y| && !ComponentsEqual(x, y) {
      var i :| 0 <= i < |x| && !NumbersEqual(NumericOfComponent(x[i]), NumericOfComponent(y[i]));
    }
  }

  lemma {:induction false} SameQuantities(x: seq<Quantity>, y: seq<Quantity>)
    ensures QuantitiesEqual(x, y) <==> HaveAmounts(x) && HaveAmounts(y) && AmountsOf(x) == AmountsOf(y)
  {
    forall i | 0 <= i < |x| && i < |y|
      ensures QuantityEqual(x[i], y[i]) <==> AmountOf(x[i]).Some? && AmountOf(x[i]) == AmountOf(y[i])
    {
      QuantityEqualIsSameAmount(x[i], y[i]);
    }
    if QuantitiesEqual(x, y) {
      assert forall i | 0 <= i < |x| :: QuantityEqual(x[i], y[i]);
      assert AmountsOf(x) == AmountsOf(y);
    } else if |x| == |y| && !QuantitiesEqual(x, y) {
      var i :| 0 <= i < |x| && !QuantityEqual(x[i], y[i]);
    }
  }
}
