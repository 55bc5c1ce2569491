/** The checks a client makes before it sends values to an older service: which
    capabilities they need, and rationals fitted to a service without them. */
module Preflight {
  import opened Numbers
  import opened Options
  import opened Units
  import opened Values
  import opened Wire
  import opened Codec
  import opened CodecLaws

  // ---------- kinds a capability governs ----------

  datatype Kind =
    | ComplexKind | StructuredKind | MeasurementRefKind | FunctionKind | SetKind | TensorKind | MetaobjectKind

  predicate IsKind(k: Kind, v: Value) {
    match k
    case ComplexKind => v.ComplexValue?
    case StructuredKind => v.Array? || v.Vector? || v.VectorQuantity?
    case MeasurementRefKind => v.MeasurementRef?
    case FunctionKind => v.Function?
    case SetKind => v.Set?
    case TensorKind => v.TensorQuantity?
    case MetaobjectKind => v.Metaobject?
  }

  function NestedValues(v: Value): seq<Value> {
    if v.Sequence? || v.Set? || v.Array? then v.elements else []
  }

  /** The carries* functions: the kind itself, or nested in a collection. */
  predicate Carries(k: Kind, v: Value)
    decreases v
  {
    IsKind(k, v) || exists i | 0 <= i < |NestedValues(v)| :: Carries(k, NestedValues(v)[i])
  }

  predicate IsBigInt(n: Option<Number>) {
    n.Some? && n.value.BigInt?
  }

  predicate SomeBigComponent(s: seq<Option<Number>>) {
    exists i | 0 <= i < |s| :: IsBigInt(s[i])
  }

  predicate SomeBigInt(s: seq<Quantity>) {
    exists i | 0 <= i < |s| :: IsBigInt(s[i].magnitude)
  }

  /** The value's own big integer: itself, a component or a magnitude. */
  predicate OwnBigInt(v: Value) {
    match v
    case Num(n) => n.BigInt?
    case QuantityValue(q) => IsBigInt(q.magnitude)
    case Vector(s) => SomeBigComponent(s)
    case VectorQuantity(s) => SomeBigInt(s)
    case TensorQuantity(_, s) => SomeBigInt(s)
    case _ => false
  }

  predicate CarriesBigInt(v: Value)
    decreases v
  {
    OwnBigInt(v) || (v.EnumLiteral? && CarriesBigInt(v.scalar)) ||
    exists i | 0 <= i < |NestedValues(v)| :: CarriesBigInt(NestedValues(v)[i])
  }

  // ---------- what the service finds in a message ----------

  predicate WIsKind(k: Kind, w: Wire) {
    match k
    case ComplexKind => w.WComplex?
    case StructuredKind => w.WArray? || w.WVector? || w.WVectorQuantity?
    case MeasurementRefKind => w.WMeasurementRef?
    case FunctionKind => w.WFunction?
    case SetKind => w.WSet?
    case TensorKind => w.WTensorQuantity?
    case MetaobjectKind => w.WMetaobject?
  }

  function WNestedValues(w: Wire): seq<Wire> {
    if w.WSequence? || w.WSet? || w.WArray? || w.WVector? then w.elements else []
  }

  predicate WCarries(k: Kind, w: Wire)
    decreases w
  {
    WIsKind(k, w) || exists i | 0 <= i < |WNestedValues(w)| :: WCarries(k, WNestedValues(w)[i])
  }

  predicate WSomeBigInt(s: seq<WireQuantity>) {
    exists i | 0 <= i < |s| :: s[i].magnitude.BigIntMagnitude?
  }

  predicate WOwnBigInt(w: Wire) {
    match w
    case WBigInt(_) => true
    case WQuantity(q) => q.magnitude.BigIntMagnitude?
    case WVectorQuantity(s) => WSomeBigInt(s)
    case WTensorQuantity(_, s) => WSomeBigInt(s)
    case _ => false
  }

  predicate WCarriesBigInt(w: Wire)
    decreases w
  {
    WOwnBigInt(w) || (w.WEnumLiteral? && WCarriesBigInt(w.scalar)) ||
    exists i | 0 <= i < |WNestedValues(w)| :: WCarriesBigInt(WNestedValues(w)[i])
  }

  // ---------- the client's answer is the service's ----------

  predicate Collection(v: Value) {
    v.Sequence? || v.Set? || v.Array?
  }

  lemma {:induction false} EncodedCollection(v: Value)
    requires Collection(v) && Encode(v).Ok?
    ensures EncodeAll(v.elements) == Ok(WNestedValues(Encode(v).value))
    ensures NestedValues(v) == v.elements && !Encode(v).value.WEnumLiteral?
    ensures !OwnBigInt(v) && !WOwnBigInt(Encode(v).value)
  {
  }

  lemma {:induction false} EncodedKind(k: Kind, v: Value)
    requires Encode(v).Ok?
    ensures WIsKind(k, Encode(v).value) == IsKind(k, v)
  {
  }

  lemma {:induction false} EncodedFlat(v: Value)
    requires !Collection(v) && Encode(v).Ok?
    ensures NestedValues(v) == []
    ensures WNestedValues(Encode(v).value) == if v.Vector? then EncodeComponents(v.components) else []
    ensures v.EnumLiteral? <==> Encode(v).value.WEnumLiteral?
    ensures v.EnumLiteral? ==> Encode(v.scalar) == Ok(Encode(v).value.scalar)
  {
  }

  /** A vector's components are numbers, or nothing. */
  predicate Bare(w: Wire) {
    w.WNil? || w.WInt? || w.WBigInt? || w.WRational? || w.WReal?
  }

  lemma {:induction false} ComponentsAreBare(s: seq<Option<Number>>)
    ensures forall i | 0 <= i < |s| :: Bare(EncodeComponents(s)[i])
  {
  }

  lemma {:induction false} CarriedOnlyItself(k: Kind, w: Wire)
    requires forall i | 0 <= i < |WNestedValues(w)| :: Bare(WNestedValues(w)[i])
    ensures WCarries(k, w) == WIsKind(k, w)
    ensures !w.WEnumLiteral? ==> AnyArm(k, w) == WIsKind(k, w)
  {
  }

  lemma {:induction false} SameNestedSameCarries(k: Kind, v: Value, w: Wire)
    requires IsKind(k, v) == WIsKind(k, w)
    requires |NestedValues(v)| == |WNestedValues(w)|
    requires forall i | 0 <= i < |NestedValues(v)| :: Carries(k, NestedValues(v)[i]) == WCarries(k, WNestedValues(w)[i])
    ensures Carries(k, v) == WCarries(k, w)
  {
  }

  /** For every kind, the preflight finds in the value what the service finds in
      the message. */
  lemma {:induction false} CarriesIsOnTheWire(k: Kind, v: Value)
    requires Encode(v).Ok?
    ensures Carries(k, v) == WCarries(k, Encode(v).value)
    decreases v
  {
    EncodedKind(k, v);
    if Collection(v) {
      EncodedCollection(v);
      forall i | 0 <= i < |v.elements|
        ensures Carries(k, v.elements[i]) == WCarries(k, WNestedValues(Encode(v).value)[i])
      {
        CarriesIsOnTheWire(k, v.elements[i]);
      }
      SameNestedSameCarries(k, v, Encode(v).value);
    } else {
      EncodedFlat(v);
      if v.Vector? {
        ComponentsAreBare(v.components);
      }
      CarriedOnlyItself(k, Encode(v).value);
    }
  }

  /** An arm of the kind anywhere in the message, an enum literal's scalar included. */
  predicate AnyArm(k: Kind, w: Wire)
    decreases w
  {
    WIsKind(k, w) || (w.WEnumLiteral? && AnyArm(k, w.scalar)) ||
    exists i | 0 <= i < |WNestedValues(w)| :: AnyArm(k, WNestedValues(w)[i])
  }

  /** Some enum literal's scalar is, or holds, a value of the kind. */
  predicate EnumHides(k: Kind, v: Value)
    decreases v
  {
    (v.EnumLiteral? && (Carries(k, v.scalar) || EnumHides(k, v.scalar))) ||
    exists i | 0 <= i < |NestedValues(v)| :: EnumHides(k, NestedValues(v)[i])
  }

  lemma {:induction false} SameNestedSameArms(k: Kind, v: Value, w: Wire)
    requires IsKind(k, v) == WIsKind(k, w) && !v.EnumLiteral? && !w.WEnumLiteral?
    requires |NestedValues(v)| == |WNestedValues(w)|
    requires forall i | 0 <= i < |NestedValues(v)| ::
               AnyArm(k, WNestedValues(w)[i]) <==> Carries(k, NestedValues(v)[i]) || EnumHides(k, NestedValues(v)[i])
    ensures AnyArm(k, w) <==> Carries(k, v) || EnumHides(k, v)
  {
  }

  /** The preflight misses an arm exactly where an enum scalar hides one. */
  lemma {:induction false} ArmsAreCarriedOrHidden(k: Kind, v: Value)
    requires Encode(v).Ok?
    ensures AnyArm(k, Encode(v).value) <==> Carries(k, v) || EnumHides(k, v)
    decreases v
  {
    EncodedKind(k, v);
    if Collection(v) {
      EncodedCollection(v);
      forall i | 0 <= i < |v.elements|
        ensures AnyArm(k, WNestedValues(Encode(v).value)[i]) <==> Carries(k, v.elements[i]) || EnumHides(k, v.elements[i])
      {
        ArmsAreCarriedOrHidden(k, v.elements[i]);
      }
      SameNestedSameArms(k, v, Encode(v).value);
    } else {
      EncodedFlat(v);
      if v.EnumLiteral? {
        ArmsAreCarriedOrHidden(k, v.scalar);
      } else {
        if v.Vector? {
          ComponentsAreBare(v.components);
        }
        CarriedOnlyItself(k, Encode(v).value);
      }
    }
  }

  /** A complex number as a literal's scalar is sent without complex_values. */
  lemma {:induction false} AnEnumScalarEscapesThePreflight()
    ensures var v := EnumLiteral("E::a", "E", "a", ComplexValue(Finite(0.0), Finite(1.0)));
            Encode(v).Ok? && !Carries(ComplexKind, v) && AnyArm(ComplexKind, Encode(v).value)
  {
    var v := EnumLiteral("E::a", "E", "a", ComplexValue(Finite(0.0), Finite(1.0)));
    ArmsAreCarriedOrHidden(ComplexKind, v);
    assert Carries(ComplexKind, v.scalar);
  }

  lemma {:induction false} BigMagnitude(n: Number)
    ensures EncodeMagnitude(n).BigIntMagnitude? ==> n.BigInt?
    ensures CanonicalNumber(n, false) && n.BigInt? ==> EncodeMagnitude(n).BigIntMagnitude?
  {
  }

  lemma {:induction false} BigQuantities(s: seq<Quantity>, sent: seq<WireQuantity>)
    requires EncodeQuantities(s) == Ok(sent)
    ensures WSomeBigInt(sent) ==> SomeBigInt(s)
    ensures CanonicalQuantities(s, false) ==> WSomeBigInt(sent) == SomeBigInt(s)
  {
    assert forall i | 0 <= i < |s| :: EncodeQuantity(s[i]) == Ok(sent[i]);
    if WSomeBigInt(sent) {
      var i :| 0 <= i < |sent| && sent[i].magnitude.BigIntMagnitude?;
      assert EncodeQuantity(s[i]) == Ok(sent[i]);
      BigMagnitude(s[i].magnitude.value);
    }
    if CanonicalQuantities(s, false) && SomeBigInt(s) {
      var i :| 0 <= i < |s| && IsBigInt(s[i].magnitude);
      assert EncodeQuantity(s[i]) == Ok(sent[i]);
      BigMagnitude(s[i].magnitude.value);
    }
  }

  lemma {:induction false} BigComponents(s: seq<Option<Number>>)
    ensures (exists i | 0 <= i < |s| :: WCarriesBigInt(EncodeComponents(s)[i])) ==> SomeBigComponent(s)
    ensures (forall i | 0 <= i < |s| :: s[i].Some? && CanonicalNumber(s[i].value, false)) ==>
              SomeBigComponent(s) == exists i | 0 <= i < |s| :: WCarriesBigInt(EncodeComponents(s)[i])
  {
    var sent := EncodeComponents(s);
    forall i | 0 <= i < |s|
      ensures WCarriesBigInt(sent[i]) ==> IsBigInt(s[i])
      ensures s[i].Some? && CanonicalNumber(s[i].value, false) && IsBigInt(s[i]) ==> WCarriesBigInt(sent[i])
    {
    }
  }

  lemma {:induction false} OwnBigInts(v: Value)
    requires !Collection(v) && !v.EnumLiteral? && !v.Vector? && Encode(v).Ok?
    ensures WOwnBigInt(Encode(v).value) ==> OwnBigInt(v)
    ensures Canonical(v, false) ==> OwnBigInt(v) == WOwnBigInt(Encode(v).value)
  {
    if v.VectorQuantity? {
      BigQuantities(v.axes, EncodeQuantities(v.axes).value);
    } else if v.TensorQuantity? {
      BigQuantities(v.quantities, EncodeQuantities(v.quantities).value);
    } else if v.QuantityValue? {
      BigMagnitude(v.quantity.magnitude.value);
    }
  }

  /** No big-integer arm is sent unannounced, at any depth; and on canonical
      values none is announced that is not sent. */
  lemma {:induction false} BigIntsAreAnnounced(v: Value)
    requires Encode(v).Ok?
    ensures WCarriesBigInt(Encode(v).value) ==> CarriesBigInt(v)
    ensures Canonical(v, false) ==> CarriesBigInt(v) == WCarriesBigInt(Encode(v).value)
    decreases v
  {
    if Collection(v) {
      EncodedCollection(v);
      var sent := WNestedValues(Encode(v).value);
      forall i | 0 <= i < |v.elements|
        ensures WCarriesBigInt(sent[i]) ==> CarriesBigInt(v.elements[i])
        ensures Canonical(v.elements[i], false) ==> CarriesBigInt(v.elements[i]) == WCarriesBigInt(sent[i])
      {
        BigIntsAreAnnounced(v.elements[i]);
      }
    } else {
      EncodedFlat(v);
      if v.EnumLiteral? {
        BigIntsAreAnnounced(v.scalar);
      } else if v.Vector? {
        BigComponents(v.components);
      } else {
        OwnBigInts(v);
      }
    }
  }

  // ---------- required capabilities ----------

  const KINDS := [ComplexKind, StructuredKind, MeasurementRefKind, FunctionKind, SetKind, TensorKind, MetaobjectKind]

  function Capability(k: Kind): string {
    match k
    case ComplexKind => "complex_values"
    case StructuredKind => "structured_values"
    case MeasurementRefKind => "measurement_refs"
    case FunctionKind => "function_values"
    case SetKind => "set_values"
    case TensorKind => "tensor_values"
    case MetaobjectKind => "metaobject_values"
  }

  const BIG_INT_VALUES := "big_int_values"

  /** requireValueCapabilities: the capabilities the values need, all of which the
      service must advertise. */
  function Needed(values: seq<Value>): seq<string> {
    NeededOf(KINDS, values) +
    (if exists i | 0 <= i < |values| :: CarriesBigInt(values[i]) then [BIG_INT_VALUES] else [])
  }

  function NeededOf(kinds: seq<Kind>, values: seq<Value>): (r: seq<string>)
    ensures forall c :: c in r <==>
              exists k :: k in kinds && c == Capability(k) && exists i | 0 <= i < |values| :: Carries(k, values[i])
  {
    if kinds == [] then []
    else
      var rest := NeededOf(kinds[1..], values);
      if exists i | 0 <= i < |values| :: Carries(kinds[0], values[i]) then [Capability(kinds[0])] + rest else rest
  }

  predicate Admits(advertised: set<string>, values: seq<Value>) {
    forall c | c in Needed(values) :: c in advertised
  }

  predicate Sends(values: seq<Value>, sent: seq<Wire>) {
    |sent| == |values| && forall i | 0 <= i < |values| :: Encode(values[i]) == Ok(sent[i])
  }

  /** A client admits canonical values exactly when the service advertises the
      capability of every kind it would find in the messages. */
  lemma {:induction false} AdmitsWhatTheServiceReads(advertised: set<string>, values: seq<Value>, sent: seq<Wire>)
    requires Sends(values, sent)
    requires forall i | 0 <= i < |values| :: Canonical(values[i], false)
    ensures Admits(advertised, values) <==>
            (forall k, i | 0 <= i < |sent| && WCarries(k, sent[i]) :: Capability(k) in advertised) &&
            (forall i | 0 <= i < |sent| && WCarriesBigInt(sent[i]) :: BIG_INT_VALUES in advertised)
  {
    forall k, i | 0 <= i < |values| ensures Carries(k, values[i]) == WCarries(k, sent[i]) {
      assert Encode(values[i]) == Ok(sent[i]);
      CarriesIsOnTheWire(k, values[i]);
    }
    forall i | 0 <= i < |values| ensures CarriesBigInt(values[i]) == WCarriesBigInt(sent[i]) {
      assert Encode(values[i]) == Ok(sent[i]);
      BigIntsAreAnnounced(values[i]);
    }
    forall k: Kind ensures k in KINDS {
      match k
      case ComplexKind => assert KINDS[0] == k;
      case StructuredKind => assert KINDS[1] == k;
      case MeasurementRefKind => assert KINDS[2] == k;
      case FunctionKind => assert KINDS[3] == k;
      case SetKind => assert KINDS[4] == k;
      case TensorKind => assert KINDS[5] == k;
      case MetaobjectKind => assert KINDS[6] == k;
    }
    forall k, i | 0 <= i < |values| && Carries(k, values[i]) ensures Capability(k) in Needed(values) {
    }
    forall i | 0 <= i < |values| && CarriesBigInt(values[i]) ensures BIG_INT_VALUES in Needed(values) {
    }
  }
}
