/** Sending rationals where the service knows only reals: which messages can be
    rewritten without loss, and what they mean then. */
module Fitting {
  import opened Numbers
  import opened Options
  import opened Units
  import opened Values
  import opened ValueLaws
  import opened Decimal
  import opened Wire
  import opened Codec
  import opened CodecLaws
  import opened Preflight

  // ---------- rationals in messages ----------

  predicate WSomeRational(s: seq<WireQuantity>) {
    exists i | 0 <= i < |s| :: s[i].magnitude.RationalMagnitude?
  }

  predicate WOwnRational(w: Wire) {
    match w
    case WRational(_, _) => true
    case WQuantity(q) => q.magnitude.RationalMagnitude?
    case WVectorQuantity(s) => WSomeRational(s)
    case WTensorQuantity(_, s) => WSomeRational(s)
    case _ => false
  }

  predicate WCarriesRational(w: Wire)
    decreases w
  {
    WOwnRational(w) || (w.WEnumLiteral? && WCarriesRational(w.scalar)) ||
    exists i | 0 <= i < |WNestedValues(w)| :: WCarriesRational(WNestedValues(w)[i])
  }

  /** The binary64 a lowest-terms rational is exactly, if any. */
  function BinaryRational(numerator: string, denominator: string): Option<Float> {
    match LowestTermsRational(numerator, denominator)
    case None => None
    case Some(q) => if HeldByDouble(q.num, q.den) then Some(Finite(q.num as real / q.den as real)) else None
  }

  function FitQuantity(q: WireQuantity): WireQuantity {
    if !q.magnitude.RationalMagnitude? then q
    else match BinaryRational(q.magnitude.numerator, q.magnitude.denominator)
      case None => q
      case Some(x) => q.(magnitude := RealMagnitude(x))
  }

  function FitQuantities(s: seq<WireQuantity>): (r: seq<WireQuantity>)
    ensures |r| == |s| && forall i | 0 <= i < |s| :: r[i] == FitQuantity(s[i])
  {
    seq(|s|, i requires 0 <= i < |s| => FitQuantity(s[i]))
  }

  /** RationalsAsReals, as the message it leaves. */
  function Fit(w: Wire): Wire
    decreases w
  {
    match w
    case WRational(numerator, denominator) =>
      (match BinaryRational(numerator, denominator) case None => w case Some(x) => WReal(x))
    case WQuantity(q) => WQuantity(FitQuantity(q))
    case WVectorQuantity(s) => WVectorQuantity(FitQuantities(s))
    case WTensorQuantity(d, s) => WTensorQuantity(d, FitQuantities(s))
    case WEnumLiteral(literalId, enumerationId, name, scalar) =>
      WEnumLiteral(literalId, enumerationId, name, Fit(scalar))
    case WSequence(s) => WSequence(FitAll(s))
    case WArray(d, s) => WArray(d, FitAll(s))
    case WVector(s) => WVector(FitAll(s))
    case WSet(s) => WSet(FitAll(s))
    case _ => w
  }

  function FitAll(s: seq<Wire>): (r: seq<Wire>)
    ensures |r| == |s| && forall i | 0 <= i < |s| :: r[i] == Fit(s[i])
    decreases s
  {
    seq(|s|, i requires 0 <= i < |s| => Fit(s[i]))
  }

  predicate AnyRational(s: seq<Wire>) {
    exists i | 0 <= i < |s| :: WCarriesRational(s[i])
  }

  /** fitRationals' loop over the messages. */
  method FitInPlace(values: array<Wire>)
    modifies values
    ensures values[..] == FitAll(old(values[..]))
  {
    ghost var before := values[..];
    ghost var fitted := FitAll(before);
    for i := 0 to values.Length
      invariant forall k | 0 <= k < i :: values[k] == fitted[k]
      invariant forall k | i <= k < values.Length :: values[k] == before[k]
    {
      values[i] := Fit(values[i]);
    }
    assert values[..] == fitted;
  }

  /** fitRationals, rewriting the messages in place; `advertised` is whether the
      service names rational_values, None when it could not be asked. */
  method FitRationals(values: array<Wire>, advertised: Option<bool>) returns (ok: bool)
    modifies values
    ensures values[..] == if AnyRational(old(values[..])) && advertised == Some(false)
                          then FitAll(old(values[..])) else old(values[..])
    ensures ok <==> advertised == Some(true) || !AnyRational(values[..])
  {
    var carried := AnyRational(values[..]);
    if !carried {
      return true;
    }
    if advertised.None? {
      return false;
    }
    if advertised.value {
      return true;
    }
    FitInPlace(values);
    ok := !AnyRational(values[..]);
  }

  // ---------- exactly which values fit ----------

  predicate Inexact(n: Number) {
    n.Rational? && !HeldByDouble(n.num, n.den)
  }

  predicate InexactComponent(n: Option<Number>) {
    n.Some? && Inexact(n.value)
  }

  predicate SomeInexact(s: seq<Quantity>) {
    exists i | 0 <= i < |s| :: InexactComponent(s[i].magnitude)
  }

  /** A rational no binary64 holds, at any depth. */
  predicate HoldsInexact(v: Value)
    decreases v
  {
    match v
    case Num(n) => Inexact(n)
    case QuantityValue(q) => InexactComponent(q.magnitude)
    case Vector(s) => exists i | 0 <= i < |s| :: InexactComponent(s[i])
    case VectorQuantity(s) => SomeInexact(s)
    case TensorQuantity(_, s) => SomeInexact(s)
    case EnumLiteral(_, _, _, scalar) => HoldsInexact(scalar)
    case Sequence(s) => exists i | 0 <= i < |s| :: HoldsInexact(s[i])
    case Array(_, s) => exists i | 0 <= i < |s| :: HoldsInexact(s[i])
    case Set(s) => exists i | 0 <= i < |s| :: HoldsInexact(s[i])
    case _ => false
  }

  lemma {:induction false} BinaryOfSpelled(num: int, den: Positive)
    requires LowestTerms(num, den)
    ensures BinaryRational(Print(num), Print(den)) ==
            if HeldByDouble(num, den) then Some(Finite(num as real / den as real)) else None
  {
    SpelledRational(num, den);
  }

  lemma {:induction false} FitsRational(num: int, den: Positive)
    requires LowestTerms(num, den)
    ensures var w := Fit(WRational(Print(num), Print(den)));
            if HeldByDouble(num, den) then w == WReal(Finite(num as real / den as real))
            else w == WRational(Print(num), Print(den))
  {
    BinaryOfSpelled(num, den);
  }

  lemma {:induction false} FitsNumber(n: Number)
    requires CanonicalNumber(n, false)
    ensures WCarriesRational(Fit(EncodeNumber(n))) == Inexact(n)
    ensures !Inexact(n) ==>
              Decode(Fit(EncodeNumber(n))).Num? &&
              PointOfNumber(Decode(Fit(EncodeNumber(n))).num) == PointOfNumber(n)
  {
    if n.Rational? {
      FitsRational(n.num, n.den);
    } else {
      MagnitudeRoundTrip(n);
      FitsPlain(n);
    }
  }

  lemma {:induction false} FitsPlain(n: Number)
    requires !n.Rational?
    ensures Fit(EncodeNumber(n)) == EncodeNumber(n) && !WCarriesRational(EncodeNumber(n))
  {
  }

  lemma {:induction false} FitsRationalMagnitude(q: WireQuantity, num: int, den: Positive)
    requires LowestTerms(num, den) && q.magnitude == RationalMagnitude(Print(num), Print(den))
    ensures FitQuantity(q) ==
            if HeldByDouble(num, den) then q.(magnitude := RealMagnitude(Finite(num as real / den as real))) else q
  {
    BinaryOfSpelled(num, den);
  }

  lemma {:induction false} DecodesMagnitude(q: WireQuantity, n: Number)
    requires DecodeMagnitude(q.magnitude) == Some(n)
    ensures DecodeQuantity(q) == Some(Quantity(Some(n), q.unit, q.term))
  {
  }

  lemma {:induction false} FitsMagnitude(q: Quantity)
    requires q.magnitude.Some? && CanonicalNumber(q.magnitude.value, false)
    ensures FitQuantity(EncodeQuantity(q).value).magnitude.RationalMagnitude? == Inexact(q.magnitude.value)
    ensures !Inexact(q.magnitude.value) ==>
              var read := DecodeQuantity(FitQuantity(EncodeQuantity(q).value));
              read.Some? && read.value.magnitude.Some? && read.value.unit == q.unit && read.value.term == q.term &&
              PointOfNumber(read.value.magnitude.value) == PointOfNumber(q.magnitude.value)
  {
    var n, sent := q.magnitude.value, EncodeQuantity(q).value;
    if n.Rational? {
      FitsRationalMagnitude(sent, n.num, n.den);
      if HeldByDouble(n.num, n.den) {
        DecodesMagnitude(FitQuantity(sent), Real(Finite(n.num as real / n.den as real)));
      }
    } else {
      MagnitudeRoundTrip(n);
      assert FitQuantity(sent) == sent;
      DecodesMagnitude(sent, n);
    }
  }

  /** Over base units, a magnitude is where its number is, scaled. */
  function ScaledCoordinate(p: Option<Point>, t: UnitTerm): Option<Coordinate>
    requires !t.ZeroScale()
  {
    if p.None? || p.value.Off? then None
    else match p.value.re
      case At(x) => Some(At(t.Scaled(x)))
      case Endless(negative) => Some(Endless(negative != (t.scaleNum / t.scaleDen < 0.0)))
  }

  lemma {:induction false} CoordinateAt(q: Quantity, x: real)
    requires q.magnitude.Some? && q.term.Some? && !q.term.value.ZeroScale()
    requires PointOfNumber(q.magnitude.value) == Some(Axis(At(x)))
    ensures CoordinateOf(BaseMagnitude(q)) == ScaledCoordinate(Some(Axis(At(x))), q.term.value)
  {
    BaseMagnitudeAt(q, x);
    var base, t := BaseMagnitude(q), q.term.value;
    MultiplyThenDivide(x, t.scaleNum, t.scaleDen);
    assert base.Num() == t.Scaled(x);
  }

  lemma {:induction false} BaseCoordinate(q: Quantity)
    requires q.magnitude.Some? && q.term.Some? && !q.term.value.ZeroScale()
    ensures CoordinateOf(BaseMagnitude(q)) == ScaledCoordinate(PointOfNumber(q.magnitude.value), q.term.value)
  {
    var t, n := q.term.value, q.magnitude.value;
    if n.Real? && n.x.NaN? {
      assert BaseMagnitude(q) == NaN;
    } else if n.Real? && n.x.Infinite? {
      assert BaseMagnitude(q) == Infinite(n.x.negative != (t.scaleNum / t.scaleDen < 0.0));
    } else {
      var x := if n.Real? then n.x.Num() else ExactOf(n).value;
      CoordinateAt(q, x);
    }
  }

  lemma {:induction false} SamePointSameAmount(p: Quantity, q: Quantity)
    requires p.magnitude.Some? && q.magnitude.Some? && p.unit == q.unit && p.term == q.term
    requires PointOfNumber(p.magnitude.value) == PointOfNumber(q.magnitude.value)
    ensures AmountOf(p) == AmountOf(q)
  {
    if q.term.Some? && !q.term.value.ZeroScale() {
      BaseCoordinate(p);
      BaseCoordinate(q);
    }
  }

  predicate FittedQuantities(s: seq<Quantity>, fitted: seq<WireQuantity>) {
    |fitted| == |s| && WSomeRational(fitted) == SomeInexact(s) &&
    (!SomeInexact(s) ==>
       AllDecode(fitted) && forall i | 0 <= i < |s| :: AmountOf(DecodeQuantities(fitted)[i]) == AmountOf(s[i]))
  }

  lemma {:induction false} FitsQuantities(s: seq<Quantity>, sent: seq<WireQuantity>)
    requires EncodeQuantities(s) == Ok(sent) && CanonicalQuantities(s, false)
    ensures FittedQuantities(s, FitQuantities(sent))
  {
    forall i | 0 <= i < |s|
      ensures FitQuantities(sent)[i].magnitude.RationalMagnitude? == Inexact(s[i].magnitude.value)
      ensures !Inexact(s[i].magnitude.value) ==>
                DecodeQuantity(FitQuantities(sent)[i]).Some? &&
                AmountOf(DecodeQuantity(FitQuantities(sent)[i]).value) == AmountOf(s[i])
    {
      assert EncodeQuantity(s[i]) == Ok(sent[i]);
      FitsMagnitude(s[i]);
      if !Inexact(s[i].magnitude.value) {
        SamePointSameAmount(DecodeQuantity(FitQuantities(sent)[i]).value, s[i]);
      }
    }
  }

  /** Each component's message carries a rational exactly when it is inexact, and
      otherwise reads as the same point. */
  predicate FittedComponents(s: seq<Option<Number>>, sent: seq<Wire>) {
    |sent| == |s| &&
    forall i | 0 <= i < |s| ::
      WCarriesRational(sent[i]) == InexactComponent(s[i]) &&
      (!InexactComponent(s[i]) ==>
         Decode(sent[i]).Num? && s[i].Some? && PointOfNumber(Decode(sent[i]).num) == PointOfNumber(s[i].value))
  }

  lemma {:induction false} FitsEachComponent(s: seq<Option<Number>>)
    requires forall i | 0 <= i < |s| :: s[i].Some? && CanonicalNumber(s[i].value, false)
    ensures FittedComponents(s, FitAll(EncodeComponents(s)))
  {
    var sent := FitAll(EncodeComponents(s));
    forall i | 0 <= i < |s|
      ensures WCarriesRational(sent[i]) == InexactComponent(s[i])
      ensures !InexactComponent(s[i]) ==>
                Decode(sent[i]).Num? && PointOfNumber(Decode(sent[i]).num) == PointOfNumber(s[i].value)
    {
      FitsNumber(s[i].value);
    }
  }

  predicate SamePoints(s: seq<Option<Number>>, read: seq<Value>) {
    |read| == |s| &&
    forall i | 0 <= i < |s| ::
      read[i].Num? && s[i].Some? && PointOfNumber(read[i].num) == PointOfNumber(s[i].value)
  }

  lemma {:induction false} ComponentsRead(s: seq<Option<Number>>, sent: seq<Wire>)
    requires FittedComponents(s, sent) && !HoldsInexact(Vector(s))
    ensures SamePoints(s, DecodeAll(sent))
  {
    forall i | 0 <= i < |s| ensures !InexactComponent(s[i]) {
    }
  }

  lemma {:induction false} VectorRead(sent: seq<Wire>, read: seq<Value>)
    requires read == DecodeAll(sent) && forall i | 0 <= i < |read| :: read[i].Num?
    ensures Decode(WVector(sent)) == Vector(NumbersIn(read))
  {
  }

  lemma {:induction false} ComponentsMean(s: seq<Option<Number>>, sent: seq<Wire>)
    requires FittedComponents(s, sent) && !HoldsInexact(Vector(s))
    ensures Decode(WVector(sent)).Vector? && MeaningOf(Decode(WVector(sent))) == MeaningOf(Vector(s))
  {
    var read := DecodeAll(sent);
    ComponentsRead(s, sent);
    VectorRead(sent, read);
    SamePointsSameMeaning(NumbersIn(read), s);
  }

  lemma {:induction false} FitsComponents(s: seq<Option<Number>>)
    requires forall i | 0 <= i < |s| :: s[i].Some? && CanonicalNumber(s[i].value, false)
    ensures AnyRational(FitAll(EncodeComponents(s))) <==> HoldsInexact(Vector(s))
    ensures !HoldsInexact(Vector(s)) ==>
              Decode(WVector(FitAll(EncodeComponents(s)))).Vector? &&
              MeaningOf(Decode(WVector(FitAll(EncodeComponents(s))))) == MeaningOf(Vector(s))
  {
    FitsEachComponent(s);
    if !HoldsInexact(Vector(s)) {
      ComponentsMean(s, FitAll(EncodeComponents(s)));
    }
  }

  lemma {:induction false} SamePointsSameMeaning(x: seq<Option<Number>>, y: seq<Option<Number>>)
    requires |x| == |y|
    requires forall i | 0 <= i < |x| :: PointOf(NumericOfComponent(x[i])) == PointOf(NumericOfComponent(y[i]))
    ensures MeaningOf(Vector(x)) == MeaningOf(Vector(y))
  {
    if forall i | 0 <= i < |x| :: PointOf(NumericOfComponent(x[i])).Some? {
      assert PointsOf(x) == PointsOf(y);
    }
  }

  lemma {:induction false} SameAmountsSameMeaning(x: seq<Quantity>, y: seq<Quantity>, d: seq<Int64>)
    requires |x| == |y|
    requires forall i | 0 <= i < |x| :: AmountOf(x[i]) == AmountOf(y[i])
    ensures MeaningOf(VectorQuantity(x)) == MeaningOf(VectorQuantity(y))
    ensures MeaningOf(TensorQuantity(d, x)) == MeaningOf(TensorQuantity(d, y))
  {
    if HaveAmounts(x) {
      assert AmountsOf(x) == AmountsOf(y);
    }
  }

  /** Collections whose members mean the same, position by position. */
  lemma {:induction false} SameMembersSameMeaning(x: seq<Value>, y: seq<Value>, d: seq<Int64>)
    requires |x| == |y|
    requires forall i | 0 <= i < |x| :: MeaningOf(x[i]) == MeaningOf(y[i])
    ensures MeaningOf(Sequence(x)) == MeaningOf(Sequence(y))
    ensures MeaningOf(Set(x)) == MeaningOf(Set(y))
    ensures MeaningOf(Array(d, x)) == MeaningOf(Array(d, y))
  {
    if AllMeaning(x) {
      assert MeaningsOf(x) == MeaningsOf(y);
    }
  }

  // ---------- fitting keeps the meaning ----------

  /** The message carries no rational unless the value holds one no binary64 does,
      and otherwise reads as a value of the same meaning. */
  predicate MeansStill(v: Value, w: Wire) {
    WCarriesRational(w) == HoldsInexact(v) && (!HoldsInexact(v) ==> MeaningOf(Decode(w)) == MeaningOf(v))
  }

  predicate FitsAsMeant(v: Value)
    requires Encode(v).Ok?
  {
    MeansStill(v, Fit(Encode(v).value))
  }

  lemma {:induction false} FitsUntouched(v: Value)
    requires !Nested(v) && Encode(v).Ok? && Canonical(v, false)
    requires !v.Num? && !v.QuantityValue? && !v.Vector? && !v.VectorQuantity? && !v.TensorQuantity?
    ensures FitsAsMeant(v)
  {
    assert Canonical(v, true);
    assert Fit(Encode(v).value) == Encode(v).value;
    FlatRoundTrip(v);
  }

  lemma {:induction false} FittedNumber(n: Number)
    requires CanonicalNumber(n, false)
    ensures MeansStill(Num(n), Fit(EncodeNumber(n)))
  {
    FitsNumber(n);
  }

  lemma {:induction false} FittedQuantity(q: Quantity)
    requires q.magnitude.Some? && CanonicalNumber(q.magnitude.value, false)
    ensures MeansStill(QuantityValue(q), WQuantity(FitQuantity(EncodeQuantity(q).value)))
  {
    FitsMagnitude(q);
    if !Inexact(q.magnitude.value) {
      SamePointSameAmount(DecodeQuantity(FitQuantity(EncodeQuantity(q).value)).value, q);
    }
  }

  lemma {:induction false} FittedVector(s: seq<Option<Number>>)
    requires Canonical(Vector(s), false)
    ensures MeansStill(Vector(s), WVector(FitAll(EncodeComponents(s))))
  {
    FitsComponents(s);
    assert WNestedValues(WVector(FitAll(EncodeComponents(s)))) == FitAll(EncodeComponents(s));
  }

  lemma {:induction false} QuantityListsCarry(s: seq<Quantity>, fitted: seq<WireQuantity>, d: seq<Int64>)
    requires FittedQuantities(s, fitted)
    ensures WCarriesRational(WVectorQuantity(fitted)) == HoldsInexact(VectorQuantity(s))
    ensures WCarriesRational(WTensorQuantity(d, fitted)) == HoldsInexact(TensorQuantity(d, s))
  {
  }

  lemma {:induction false} QuantityListsMean(s: seq<Quantity>, fitted: seq<WireQuantity>, d: seq<Int64>)
    requires FittedQuantities(s, fitted) && !SomeInexact(s)
    ensures s != [] ==> MeaningOf(Decode(WVectorQuantity(fitted))) == MeaningOf(VectorQuantity(s))
    ensures Fills(d, |s|) ==> MeaningOf(Decode(WTensorQuantity(d, fitted))) == MeaningOf(TensorQuantity(d, s))
  {
    var read := DecodeQuantities(fitted);
    assert s != [] ==> Decode(WVectorQuantity(fitted)) == VectorQuantity(read);
    assert Fills(d, |s|) ==> Decode(WTensorQuantity(d, fitted)) == TensorQuantity(d, read);
    SameAmountsSameMeaning(read, s, d);
  }

  lemma {:induction false} FittedList(s: seq<Quantity>, fitted: seq<WireQuantity>, d: seq<Int64>)
    requires FittedQuantities(s, fitted)
    ensures s != [] ==> MeansStill(VectorQuantity(s), WVectorQuantity(fitted))
    ensures Fills(d, |s|) ==> MeansStill(TensorQuantity(d, s), WTensorQuantity(d, fitted))
  {
    QuantityListsCarry(s, fitted, d);
    if !SomeInexact(s) {
      QuantityListsMean(s, fitted, d);
    }
  }

  /** What fitting leaves of each flat message. */
  lemma {:induction false} FittedQuantityMessage(q: Quantity)
    requires Encode(QuantityValue(q)).Ok?
    ensures q.magnitude.Some?
    ensures Fit(Encode(QuantityValue(q)).value) == WQuantity(FitQuantity(EncodeQuantity(q).value))
  {
    assert Encode(QuantityValue(q)) == Ok(WQuantity(EncodeQuantity(q).value));
  }

  lemma {:induction false} FittedVectorMessage(s: seq<Option<Number>>)
    requires Encode(Vector(s)).Ok?
    ensures Fit(Encode(Vector(s)).value) == WVector(FitAll(EncodeComponents(s)))
  {
  }

  lemma {:induction false} FittedAxesMessage(s: seq<Quantity>)
    requires Encode(VectorQuantity(s)).Ok?
    ensures EncodeQuantities(s).Ok?
    ensures Fit(Encode(VectorQuantity(s)).value) == WVectorQuantity(FitQuantities(EncodeQuantities(s).value))
  {
  }

  lemma {:induction false} EncodedTensor(d: seq<Int64>, s: seq<Quantity>)
    requires Encode(TensorQuantity(d, s)).Ok?
    ensures EncodeQuantities(s).Ok?
    ensures Encode(TensorQuantity(d, s)) == Ok(WTensorQuantity(d, EncodeQuantities(s).value))
  {
  }

  lemma {:induction false} FittedTensorMessage(d: seq<Int64>, s: seq<Quantity>)
    requires Encode(TensorQuantity(d, s)).Ok?
    ensures EncodeQuantities(s).Ok?
    ensures Fit(Encode(TensorQuantity(d, s)).value) == WTensorQuantity(d, FitQuantities(EncodeQuantities(s).value))
  {
    EncodedTensor(d, s);
  }

  lemma {:induction false} FitsFlat(v: Value)
    requires !Nested(v) && Encode(v).Ok? && Canonical(v, false)
    ensures FitsAsMeant(v)
  {
    if v.Num? {
      FittedNumber(v.num);
    } else if v.QuantityValue? {
      FittedQuantityMessage(v.quantity);
      FittedQuantity(v.quantity);
    } else if v.Vector? {
      FittedVectorMessage(v.components);
      FittedVector(v.components);
    } else if v.VectorQuantity? {
      FittedAxesMessage(v.axes);
      FitsQuantities(v.axes, EncodeQuantities(v.axes).value);
      FittedList(v.axes, FitQuantities(EncodeQuantities(v.axes).value), []);
    } else if v.TensorQuantity? {
      FittedTensorMessage(v.dimensions, v.quantities);
      FitsQuantities(v.quantities, EncodeQuantities(v.quantities).value);
      FittedList(v.quantities, FitQuantities(EncodeQuantities(v.quantities).value), v.dimensions);
    } else {
      FitsUntouched(v);
    }
  }

  predicate FitsPointwise(s: seq<Value>, fitted: seq<Wire>) {
    |fitted| == |s| &&
    forall i | 0 <= i < |s| ::
      WCarriesRational(fitted[i]) == HoldsInexact(s[i]) &&
      (!HoldsInexact(s[i]) ==> MeaningOf(Decode(fitted[i])) == MeaningOf(s[i]))
  }

  lemma {:induction false} FittedCollection(v: Value)
    requires Collection(v) && Encode(v).Ok?
    ensures var w := Fit(Encode(v).value);
            EncodeAll(v.elements).Ok? && WNestedValues(w) == FitAll(EncodeAll(v.elements).value) &&
            !WOwnRational(w) && !w.WEnumLiteral? &&
            (v.Sequence? ==> w.WSequence?) && (v.Set? ==> w.WSet?) &&
            (v.Array? ==> w.WArray? && w.dimensions == v.dimensions)
  {
    EncodedCollection(v);
  }

  predicate MeanPointwise(x: seq<Value>, y: seq<Value>) {
    |x| == |y| && forall i | 0 <= i < |x| :: MeaningOf(x[i]) == MeaningOf(y[i])
  }

  lemma {:induction false} FittedMembersMean(v: Value, fitted: seq<Wire>)
    requires Collection(v) && FitsPointwise(v.elements, fitted) && !HoldsInexact(v)
    ensures MeanPointwise(DecodeAll(fitted), v.elements)
  {
    forall i | 0 <= i < |fitted| ensures MeaningOf(DecodeAll(fitted)[i]) == MeaningOf(v.elements[i]) {
      assert !HoldsInexact(v.elements[i]);
    }
  }

  lemma {:induction false} FitsSequence(s: seq<Value>, fitted: seq<Wire>)
    requires MeanPointwise(DecodeAll(fitted), s)
    ensures MeaningOf(Decode(WSequence(fitted))) == MeaningOf(Sequence(s))
  {
    SameMembersSameMeaning(DecodeAll(fitted), s, []);
  }

  lemma {:induction false} FitsArray(d: seq<Int64>, s: seq<Value>, fitted: seq<Wire>)
    requires MeanPointwise(DecodeAll(fitted), s) && Fills(d, |s|)
    ensures MeaningOf(Decode(WArray(d, fitted))) == MeaningOf(Array(d, s))
  {
    SameMembersSameMeaning(DecodeAll(fitted), s, d);
  }

  lemma {:induction false} DecodesAsSet(fitted: seq<Wire>)
    requires !Repeats(DecodeAll(fitted))
    ensures Decode(WSet(fitted)) == Set(DecodeAll(fitted))
  {
  }

  lemma {:induction false} FitsSet(s: seq<Value>, fitted: seq<Wire>)
    requires MeanPointwise(DecodeAll(fitted), s) && !Repeats(s)
    ensures MeaningOf(Decode(WSet(fitted))) == MeaningOf(Set(s))
  {
    RepeatsIsAboutMeanings(DecodeAll(fitted), s);
    DecodesAsSet(fitted);
    SameMembersSameMeaning(DecodeAll(fitted), s, []);
  }

  lemma {:induction false} CollectionHoldsInexact(v: Value, w: Wire)
    requires Collection(v) && FitsPointwise(v.elements, WNestedValues(w))
    requires !WOwnRational(w) && !w.WEnumLiteral?
    ensures WCarriesRational(w) == HoldsInexact(v)
  {
  }

  lemma {:induction false} FitsCollection(v: Value)
    requires Collection(v) && Encode(v).Ok? && Canonical(v, false)
    requires FitsPointwise(v.elements, WNestedValues(Fit(Encode(v).value)))
    ensures FitsAsMeant(v)
  {
    var w := Fit(Encode(v).value);
    FittedCollection(v);
    CollectionHoldsInexact(v, w);
    if !HoldsInexact(v) {
      FittedMembersMean(v, w.elements);
      if v.Sequence? {
        FitsSequence(v.elements, w.elements);
      } else if v.Array? {
        FitsArray(v.dimensions, v.elements, w.elements);
      } else {
        FitsSet(v.elements, w.elements);
      }
    }
  }

  lemma {:induction false} FitsLiteral(v: Value)
    requires v.EnumLiteral? && Encode(v).Ok? && Encode(v.scalar).Ok?
    requires WCarriesRational(Fit(Encode(v.scalar).value)) == HoldsInexact(v.scalar)
    ensures FitsAsMeant(v)
  {
    var w := Fit(Encode(v).value);
    assert w.WEnumLiteral? && w.literalId == v.literalId && w.scalar == Fit(Encode(v.scalar).value);
  }

  /** A message fits exactly when its value holds no rational that no binary64
      holds; and what fits still means what was sent, sets without repeats included. */
  lemma {:induction false} FittingKeepsMeaning(v: Value)
    requires Encode(v).Ok? && Canonical(v, false)
    ensures WCarriesRational(Fit(Encode(v).value)) <==> HoldsInexact(v)
    ensures !HoldsInexact(v) ==> MeaningOf(Decode(Fit(Encode(v).value))) == MeaningOf(v)
    decreases v
  {
    if !Nested(v) {
      FitsFlat(v);
    } else if v.EnumLiteral? {
      FittingKeepsMeaning(v.scalar);
      FitsLiteral(v);
    } else {
      FittedCollection(v);
      forall i | 0 <= i < |v.elements|
        ensures FitsAsMeant(v.elements[i])
      {
        FittingKeepsMeaning(v.elements[i]);
      }
      FitsCollection(v);
    }
  }

  /** Wherever the value has a literal, what was read has one whose scalar means
      the same, and so on inside that scalar. */
  predicate ScalarsMean(v: Value, read: Value)
    decreases v
  {
    (v.EnumLiteral? ==>
       read.EnumLiteral? && MeaningOf(read.scalar) == MeaningOf(v.scalar) && ScalarsMean(v.scalar, read.scalar)) &&
    (Collection(v) ==>
       Collection(read) && |read.elements| == |v.elements| &&
       forall i | 0 <= i < |v.elements| :: ScalarsMean(v.elements[i], read.elements[i]))
  }

  lemma {:induction false} FlatHasNoScalars(v: Value, read: Value)
    requires !Nested(v)
    ensures ScalarsMean(v, read)
  {
  }

  lemma {:induction false} LiteralScalars(v: Value)
    requires v.EnumLiteral? && Encode(v).Ok? && Encode(v.scalar).Ok?
    ensures var read := Decode(Fit(Encode(v).value));
            read.EnumLiteral? && read.scalar == Decode(Fit(Encode(v.scalar).value))
  {
  }

  lemma {:induction false} LiteralScalarsMean(v: Value, read: Value, scalar: Value)
    requires v.EnumLiteral? && read.EnumLiteral? && read.scalar == scalar
    requires MeaningOf(scalar) == MeaningOf(v.scalar) && ScalarsMean(v.scalar, scalar)
    ensures ScalarsMean(v, read)
  {
  }

  /** A message's elements as they are read, however the message is made of them. */
  lemma {:induction false} ElementsRead(v: Value, w: Wire, members: seq<Value>)
    requires (v.Sequence? ==> w.WSequence?) && (v.Set? ==> w.WSet?)
    requires v.Array? ==> w.WArray? && Fills(w.dimensions, |w.elements|)
    requires Collection(v) && members == DecodeAll(w.elements) && (v.Set? ==> !Repeats(members))
    ensures Collection(Decode(w)) && Decode(w).elements == members
  {
  }

  /** A fitted set or array still has its elements, none misshapen or merged. */
  lemma {:induction false} CollectionRead(v: Value, fitted: seq<Wire>)
    requires Collection(v) && Encode(v).Ok? && Canonical(v, false) && !HoldsInexact(v)
    requires fitted == WNestedValues(Fit(Encode(v).value)) && FitsPointwise(v.elements, fitted)
    ensures var read := Decode(Fit(Encode(v).value));
            Collection(read) && read.elements == DecodeAll(fitted)
  {
    FittedCollection(v);
    FittedMembersMean(v, fitted);
    if v.Set? {
      RepeatsIsAboutMeanings(DecodeAll(fitted), v.elements);
    }
    ElementsRead(v, Fit(Encode(v).value), DecodeAll(fitted));
  }

  lemma {:induction false} ElementsScalarsMean(v: Value, read: Value)
    requires Collection(v) && Collection(read) && |read.elements| == |v.elements|
    requires forall i | 0 <= i < |v.elements| :: ScalarsMean(v.elements[i], read.elements[i])
    ensures ScalarsMean(v, read)
  {
  }

  lemma {:induction false} InexactElement(v: Value, i: nat)
    requires Collection(v) && i < |v.elements| && !HoldsInexact(v)
    ensures !HoldsInexact(v.elements[i])
  {
  }

  /** A literal means its identifier whatever its scalar; but the scalar, too,
      still means what it did, at every depth. */
  lemma {:induction false} FittingKeepsScalars(v: Value)
    requires Encode(v).Ok? && Canonical(v, false) && !HoldsInexact(v)
    ensures ScalarsMean(v, Decode(Fit(Encode(v).value)))
    decreases v, 1
  {
    if !Nested(v) {
      FlatHasNoScalars(v, Decode(Fit(Encode(v).value)));
    } else if v.EnumLiteral? {
      FittingKeepsMeaning(v.scalar);
      FittingKeepsScalars(v.scalar);
      LiteralScalars(v);
      LiteralScalarsMean(v, Decode(Fit(Encode(v).value)), Decode(Fit(Encode(v.scalar).value)));
    } else {
      CollectionKeepsScalars(v);
    }
  }

  lemma {:induction false} ElementsFit(v: Value)
    requires Collection(v) && Encode(v).Ok? && Canonical(v, false)
    ensures FitsPointwise(v.elements, WNestedValues(Fit(Encode(v).value)))
  {
    FittedCollection(v);
    forall i | 0 <= i < |v.elements| ensures FitsAsMeant(v.elements[i]) {
      FittingKeepsMeaning(v.elements[i]);
    }
  }

  lemma {:induction false} ElementAt(v: Value, i: nat)
    requires Collection(v) && Encode(v).Ok? && Canonical(v, false) && i < |v.elements|
    ensures Encode(v.elements[i]).Ok? && Canonical(v.elements[i], false)
    ensures |WNestedValues(Fit(Encode(v).value))| == |v.elements|
    ensures WNestedValues(Fit(Encode(v).value))[i] == Fit(Encode(v.elements[i]).value)
  {
    FittedCollection(v);
  }

  lemma {:induction false} CollectionKeepsScalars(v: Value)
    requires Collection(v) && Encode(v).Ok? && Canonical(v, false) && !HoldsInexact(v)
    ensures ScalarsMean(v, Decode(Fit(Encode(v).value)))
    decreases v, 0
  {
    var fitted := WNestedValues(Fit(Encode(v).value));
    var members := DecodeAll(fitted);
    ElementsFit(v);
    CollectionRead(v, fitted);
    forall i | 0 <= i < |v.elements| ensures ScalarsMean(v.elements[i], members[i]) {
      InexactElement(v, i);
      ElementAt(v, i);
      FittingKeepsScalars(v.elements[i]);
    }
    ElementsScalarsMean(v, Decode(Fit(Encode(v).value)));
  }
}
