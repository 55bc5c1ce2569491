/** What the codec keeps: which values are refused, which come back as they were,
    and that reading always yields the one canonical form. */
module CodecLaws {
  import opened Numbers
  import opened Options
  import opened Units
  import opened Values
  import opened Decimal
  import opened Wire
  import opened Codec

  // ---------- which values are sent ----------

  predicate HaveMagnitudes(s: seq<Quantity>) {
    forall i | 0 <= i < |s| :: s[i].magnitude.Some?
  }

  /** Nothing reported-only, no missing magnitude or name, no repeated member and
      no unfilled tensor, at any depth. */
  predicate Sendable(v: Value)
    decreases v
  {
    match v
    case Unset => false
    case Undetermined(_, _, _) => false
    case Sequence(s) => forall i | 0 <= i < |s| :: Sendable(s[i])
    case Array(_, s) => forall i | 0 <= i < |s| :: Sendable(s[i])
    case Set(s) => !Repeats(s) && forall i | 0 <= i < |s| :: Sendable(s[i])
    case EnumLiteral(_, _, _, scalar) => Sendable(scalar)
    case QuantityValue(q) => q.magnitude.Some?
    case VectorQuantity(s) => HaveMagnitudes(s)
    case TensorQuantity(d, s) => Fills(d, |s|) && HaveMagnitudes(s)
    case Function(calcId, _) => calcId != ""
    case Metaobject(elementId, _) => elementId != ""
    case _ => true
  }

  /** The encoder accepts exactly the sendable values. */
  lemma {:induction false} EncodesExactlySendable(v: Value)
    ensures Encode(v).Ok? <==> Sendable(v)
    decreases v
  {
    match v
    case Sequence(s) => AllEncodeExactlySendable(v, s);
    case Array(_, s) => AllEncodeExactlySendable(v, s);
    case Set(s) => AllEncodeExactlySendable(v, s);
    case EnumLiteral(_, _, _, scalar) => EncodesExactlySendable(scalar);
    case _ => FlatEncodesExactlySendable(v);
  }

  lemma {:induction false} FlatEncodesExactlySendable(v: Value)
    requires !v.Sequence? && !v.Array? && !v.Set? && !v.EnumLiteral?
    ensures Encode(v).Ok? <==> Sendable(v)
  {
  }

  lemma {:induction false} AllEncodeExactlySendable(v: Value, s: seq<Value>)
    requires forall i | 0 <= i < |s| :: s[i] < v
    ensures EncodeAll(s).Ok? <==> forall i | 0 <= i < |s| :: Sendable(s[i])
    decreases v, 0
  {
    forall i | 0 <= i < |s| ensures Encode(s[i]).Ok? <==> Sendable(s[i]) {
      EncodesExactlySendable(s[i]);
    }
  }

  // ---------- canonical form ----------

  /** One spelling a number: BigInt only beyond int64, rationals in lowest terms
      and, when strict, only those no binary64 holds. */
  predicate CanonicalNumber(n: Number, strict: bool) {
    match n
    case BigInt(n) => !FitsInt64(n)
    case Rational(num, den) => LowestTerms(num, den) && (strict ==> !HeldByDouble(num, den))
    case _ => true
  }

  predicate CanonicalQuantities(s: seq<Quantity>, strict: bool) {
    forall i | 0 <= i < |s| :: s[i].magnitude.Some? && CanonicalNumber(s[i].magnitude.value, strict)
  }

  predicate Canonical(v: Value, strict: bool)
    decreases v
  {
    match v
    case Num(n) => CanonicalNumber(n, strict)
    case Sequence(s) => forall i | 0 <= i < |s| :: Canonical(s[i], strict)
    case Set(s) => !Repeats(s) && forall i | 0 <= i < |s| :: Canonical(s[i], strict)
    case Array(d, s) => Fills(d, |s|) && forall i | 0 <= i < |s| :: Canonical(s[i], strict)
    case EnumLiteral(_, _, _, scalar) => Canonical(scalar, strict)
    case Vector(s) => forall i | 0 <= i < |s| :: s[i].Some? && CanonicalNumber(s[i].value, strict)
    case QuantityValue(q) => q.magnitude.Some? && CanonicalNumber(q.magnitude.value, strict)
    case VectorQuantity(s) => s != [] && CanonicalQuantities(s, strict)
    case TensorQuantity(d, s) => Fills(d, |s|) && CanonicalQuantities(s, strict)
    case MeasurementRef(r) => r.term.Some?
    case Function(calcId, _) => calcId != ""
    case Metaobject(elementId, _) => elementId != ""
    case _ => true
  }

  // ---------- reading yields the canonical form ----------

  lemma {:induction false} DecodedMagnitudeIsCanonical(m: Magnitude)
    requires DecodeMagnitude(m).Some?
    ensures CanonicalNumber(DecodeMagnitude(m).value, true)
  {
  }

  lemma {:induction false} DecodedQuantitiesAreCanonical(s: seq<WireQuantity>)
    requires AllDecode(s)
    ensures CanonicalQuantities(DecodeQuantities(s), true)
  {
    forall i | 0 <= i < |s|
      ensures DecodeQuantities(s)[i].magnitude.Some?
      ensures CanonicalNumber(DecodeQuantities(s)[i].magnitude.value, true)
    {
      assert DecodeQuantity(s[i]).Some?;
      DecodedMagnitudeIsCanonical(s[i].magnitude);
    }
  }

  /** Whatever message arrives, what is read is canonical. */
  lemma {:induction false} DecodedIsCanonical(w: Wire)
    ensures Canonical(Decode(w), true)
    decreases w
  {
    if w.WSequence? || w.WArray? || w.WSet? || w.WVector? {
      DecodedAreCanonical(w, w.elements);
    } else if w.WEnumLiteral? {
      DecodedIsCanonical(w.scalar);
    } else {
      FlatDecodedIsCanonical(w);
    }
  }

  lemma {:induction false} FlatDecodedIsCanonical(w: Wire)
    requires !w.WSequence? && !w.WArray? && !w.WSet? && !w.WVector? && !w.WEnumLiteral?
    ensures Canonical(Decode(w), true)
  {
    if w.WVectorQuantity? && AllDecode(w.axes) {
      DecodedQuantitiesAreCanonical(w.axes);
    } else if w.WTensorQuantity? && AllDecode(w.quantities) {
      DecodedQuantitiesAreCanonical(w.quantities);
    }
  }

  lemma {:induction false} DecodedAreCanonical(w: Wire, s: seq<Wire>)
    requires forall i | 0 <= i < |s| :: s[i] < w
    ensures forall i | 0 <= i < |s| :: Canonical(DecodeAll(s)[i], true)
    decreases w, 0
  {
    forall i | 0 <= i < |s| ensures Canonical(Decode(s[i]), true) {
      DecodedIsCanonical(s[i]);
    }
  }

  // ---------- round trips ----------

  lemma {:induction false} MagnitudeRoundTrip(n: Number)
    requires CanonicalNumber(n, true)
    ensures DecodeMagnitude(EncodeMagnitude(n)) == Some(n)
    ensures Decode(EncodeNumber(n)) == Num(n)
  {
    match n
    case BigInt(n) => ParsePrint(n);
    case Rational(num, den) => SpelledRational(num, den);
    case _ =>
  }

  lemma {:induction false} QuantitiesRoundTrip(s: seq<Quantity>, sent: seq<WireQuantity>)
    requires EncodeQuantities(s) == Ok(sent) && CanonicalQuantities(s, true)
    ensures AllDecode(sent) && DecodeQuantities(sent) == s
  {
    forall i | 0 <= i < |s| ensures DecodeQuantity(sent[i]) == Some(s[i]) {
      MagnitudeRoundTrip(s[i].magnitude.value);
      assert EncodeQuantity(s[i]) == Ok(sent[i]);
    }
  }

  lemma {:induction false} ComponentsRoundTrip(s: seq<Option<Number>>)
    requires forall i | 0 <= i < |s| :: s[i].Some? && CanonicalNumber(s[i].value, true)
    ensures Decode(WVector(EncodeComponents(s))) == Vector(s)
  {
    var sent := EncodeComponents(s);
    forall i | 0 <= i < |s| ensures DecodeAll(sent)[i] == Num(s[i].value) {
      MagnitudeRoundTrip(s[i].value);
    }
    assert NumbersIn(DecodeAll(sent)) == s;
  }

  predicate Nested(v: Value) {
    v.Sequence? || v.Array? || v.Set? || v.EnumLiteral?
  }

  lemma {:induction false} FlatRoundTrip(v: Value)
    requires !Nested(v) && Encode(v).Ok? && Canonical(v, true)
    ensures Decode(Encode(v).value) == v
  {
    if v.Num? {
      MagnitudeRoundTrip(v.num);
    } else if v.Vector? {
      ComponentsRoundTrip(v.components);
    } else if v.QuantityValue? {
      QuantityRoundTrip(v.quantity);
    } else if v.VectorQuantity? {
      VectorQuantityRoundTrip(v.axes);
    } else if v.TensorQuantity? {
      TensorQuantityRoundTrip(v.dimensions, v.quantities);
    } else {
      PlainRoundTrip(v);
    }
  }

  lemma {:induction false} QuantityRoundTrip(q: Quantity)
    requires q.magnitude.Some? && CanonicalNumber(q.magnitude.value, true)
    ensures Encode(QuantityValue(q)).Ok?
    ensures Decode(Encode(QuantityValue(q)).value) == QuantityValue(q)
  {
    MagnitudeRoundTrip(q.magnitude.value);
  }

  lemma {:induction false} VectorQuantityRoundTrip(s: seq<Quantity>)
    requires s != [] && Encode(VectorQuantity(s)).Ok? && CanonicalQuantities(s, true)
    ensures Decode(Encode(VectorQuantity(s)).value) == VectorQuantity(s)
  {
    QuantitiesRoundTrip(s, EncodeQuantities(s).value);
  }

  lemma {:induction false} TensorQuantityRoundTrip(d: seq<Int64>, s: seq<Quantity>)
    requires Encode(TensorQuantity(d, s)).Ok? && CanonicalQuantities(s, true)
    ensures Decode(Encode(TensorQuantity(d, s)).value) == TensorQuantity(d, s)
  {
    QuantitiesRoundTrip(s, EncodeQuantities(s).value);
  }

  /** The kinds whose message is the value field by field. */
  lemma {:induction false} PlainRoundTrip(v: Value)
    requires !Nested(v) && Encode(v).Ok? && Canonical(v, true)
    requires !v.Num? && !v.Vector? && !v.QuantityValue? && !v.VectorQuantity? && !v.TensorQuantity?
    ensures Decode(Encode(v).value) == v
  {
  }

  lemma {:induction false} CollectionRoundTrip(v: Value)
    requires v.Sequence? || v.Array? || v.Set?
    requires v.Array? ==> Fills(v.dimensions, |v.elements|)
    requires v.Set? ==> !Repeats(v.elements)
    requires EncodeAll(v.elements).Ok? && DecodeAll(EncodeAll(v.elements).value) == v.elements
    ensures Decode(Encode(v).value) == v
  {
    var sent := EncodeAll(v.elements).value;
    CollectionEncodes(v, sent);
    if v.Sequence? {
      assert Decode(WSequence(sent)) == v;
    } else if v.Array? {
      assert Decode(WArray(v.dimensions, sent)) == v;
    } else {
      assert Decode(WSet(sent)) == v;
    }
  }

  lemma {:induction false} CollectionEncodes(v: Value, sent: seq<Wire>)
    requires v.Sequence? || v.Array? || v.Set?
    requires v.Set? ==> !Repeats(v.elements)
    requires EncodeAll(v.elements) == Ok(sent)
    ensures v.Sequence? ==> Encode(v) == Ok(WSequence(sent))
    ensures v.Array? ==> Encode(v) == Ok(WArray(v.dimensions, sent))
    ensures v.Set? ==> Encode(v) == Ok(WSet(sent))
  {
  }

  /** A canonical value that is sent reads back as the identical value. */
  lemma {:induction false} RoundTrip(v: Value)
    requires Encode(v).Ok? && Canonical(v, true)
    ensures Decode(Encode(v).value) == v
    decreases v
  {
    if !Nested(v) {
      FlatRoundTrip(v);
    } else if v.EnumLiteral? {
      RoundTrip(v.scalar);
    } else {
      ElementsRoundTrip(v, v.elements);
      CollectionRoundTrip(v);
    }
  }

  lemma {:induction false} ElementsRoundTrip(v: Value, s: seq<Value>)
    requires forall i | 0 <= i < |s| :: s[i] < v && Canonical(s[i], true)
    requires EncodeAll(s).Ok?
    ensures DecodeAll(EncodeAll(s).value) == s
    decreases v, 0
  {
    forall i | 0 <= i < |s| ensures Decode(EncodeAll(s).value[i]) == s[i] {
      RoundTrip(s[i]);
    }
  }

  /** The round trip is the identity on the canonical values and on no other. */
  lemma {:induction false} RoundTripsExactlyCanonical(v: Value)
    requires Encode(v).Ok?
    ensures Decode(Encode(v).value) == v <==> Canonical(v, true)
  {
    if Canonical(v, true) {
      RoundTrip(v);
    }
    DecodedIsCanonical(Encode(v).value);
  }

  /** So no two canonical values share a message. */
  lemma {:induction false} EncodingIsInjective(v: Value, w: Value)
    requires Canonical(v, true) && Canonical(w, true)
    requires Encode(v).Ok? && Encode(v) == Encode(w)
    ensures v == w
  {
    RoundTrip(v);
    RoundTrip(w);
  }

  /** Some feature's missing or open result, at any depth. */
  predicate ReportedOnly(v: Value)
    decreases v
  {
    match v
    case Unset => true
    case Undetermined(_, _, _) => true
    case Sequence(s) => exists i | 0 <= i < |s| :: ReportedOnly(s[i])
    case Array(_, s) => exists i | 0 <= i < |s| :: ReportedOnly(s[i])
    case Set(s) => exists i | 0 <= i < |s| :: ReportedOnly(s[i])
    case EnumLiteral(_, _, _, scalar) => ReportedOnly(scalar)
    case _ => false
  }

  lemma {:induction false} CanonicalIsSendable(v: Value)
    requires Canonical(v, true)
    ensures Sendable(v) <==> !ReportedOnly(v)
    decreases v
  {
    match v
    case Sequence(s) => CanonicalAreSendable(v, s);
    case Array(_, s) => CanonicalAreSendable(v, s);
    case Set(s) => CanonicalAreSendable(v, s);
    case EnumLiteral(_, _, _, scalar) => CanonicalIsSendable(scalar);
    case _ =>
  }

  lemma {:induction false} CanonicalAreSendable(v: Value, s: seq<Value>)
    requires forall i | 0 <= i < |s| :: s[i] < v && Canonical(s[i], true)
    ensures (forall i | 0 <= i < |s| :: Sendable(s[i])) <==> !exists i | 0 <= i < |s| :: ReportedOnly(s[i])
    decreases v, 0
  {
    forall i | 0 <= i < |s| ensures Sendable(s[i]) <==> !ReportedOnly(s[i]) {
      CanonicalIsSendable(s[i]);
    }
  }

  /** An answer can be sent back unless it reports an unset or open result, and
      then reads as before: decoding normalises once and for all. */
  lemma {:induction false} DecodingIsIdempotent(w: Wire)
    ensures Encode(Decode(w)).Ok? <==> !ReportedOnly(Decode(w))
    ensures Encode(Decode(w)).Ok? ==> Decode(Encode(Decode(w)).value) == Decode(w)
  {
    DecodedIsCanonical(w);
    CanonicalIsSendable(Decode(w));
    EncodesExactlySendable(Decode(w));
    if Encode(Decode(w)).Ok? {
      RoundTrip(Decode(w));
    }
  }
}
