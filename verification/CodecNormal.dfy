/** What a sent value is read as, told from the value: the form its numbers settle
    into, and the nulls that stand for what the wire's canonical form has no room for. */
module CodecNormal {
  import opened Numbers
  import opened Options
  import opened Units
  import opened Values
  import opened ValueLaws
  import opened Decimal
  import opened Wire
  import opened Codec
  import opened CodecLaws

  // ---------- normal forms ----------

  /** A BigInt within int64 is an Int; a rational that is not in lowest terms, or
      that a binary64 holds, is none. */
  function NormalNumber(n: Number): Option<Number> {
    match n
    case BigInt(k) => Some(NewInteger(k))
    case Rational(num, den) => if LowestTerms(num, den) && !HeldByDouble(num, den) then Some(n) else None
    case _ => Some(n)
  }

  predicate HasNormalNumber(n: Option<Number>) {
    n.Some? && NormalNumber(n.value).Some?
  }

  predicate AllNormalComponents(s: seq<Option<Number>>) {
    forall i | 0 <= i < |s| :: HasNormalNumber(s[i])
  }

  function NormalComponents(s: seq<Option<Number>>): (r: seq<Option<Number>>)
    requires AllNormalComponents(s)
    ensures |r| == |s| && forall i | 0 <= i < |s| :: r[i] == NormalNumber(s[i].value)
  {
    seq(|s|, i requires 0 <= i < |s| => NormalNumber(s[i].value))
  }

  predicate AllNormalQuantities(s: seq<Quantity>) {
    forall i | 0 <= i < |s| :: HasNormalNumber(s[i].magnitude)
  }

  function NormalQuantity(q: Quantity): Quantity
    requires HasNormalNumber(q.magnitude)
  {
    Quantity(NormalNumber(q.magnitude.value), q.unit, q.term)
  }

  function NormalQuantities(s: seq<Quantity>): (r: seq<Quantity>)
    requires AllNormalQuantities(s)
    ensures |r| == |s| && forall i | 0 <= i < |s| :: r[i] == NormalQuantity(s[i])
  {
    seq(|s|, i requires 0 <= i < |s| => NormalQuantity(s[i]))
  }

  predicate PairwiseUnequal(s: seq<Value>) {
    forall i, j | 0 <= i < j < |s| :: !Equal(s[i], s[j])
  }

  function Normal(v: Value): Value
    decreases v
  {
    match v
    case Num(n) => if NormalNumber(n).Some? then Num(NormalNumber(n).value) else Null(RATIONAL_NOT_LOWEST)
    case QuantityValue(q) =>
      if HasNormalNumber(q.magnitude) then QuantityValue(NormalQuantity(q)) else Null(QUANTITY_BARE)
    case EnumLiteral(literalId, enumerationId, name, scalar) =>
      EnumLiteral(literalId, enumerationId, name, Normal(scalar))
    case Sequence(s) => Sequence(NormalAll(s))
    case Array(d, s) => if Fills(d, |s|) then Array(d, NormalAll(s)) else Null(ARRAY_MISSHAPEN)
    case Set(s) => if PairwiseUnequal(NormalAll(s)) then Set(NormalAll(s)) else Null(SET_REPEATS)
    case Vector(s) => if AllNormalComponents(s) then Vector(NormalComponents(s)) else Null(VECTOR_NOT_NUMERIC)
    case VectorQuantity(s) =>
      if s == [] then Null(VECTOR_QUANTITY_EMPTY)
      else if AllNormalQuantities(s) then VectorQuantity(NormalQuantities(s))
      else Null(VECTOR_QUANTITY_BARE)
    case TensorQuantity(d, s) =>
      if AllNormalQuantities(s) then TensorQuantity(d, NormalQuantities(s)) else Null(TENSOR_BARE)
    case MeasurementRef(r) =>
      if r.term.Some? then v
      else if r.unit == "" && r.unitId == "" then Null(REF_NAMELESS)
      else Null(REF_UNREDUCED)
    case _ => v
  }

  function NormalAll(s: seq<Value>): (r: seq<Value>)
    ensures |r| == |s| && forall i | 0 <= i < |s| :: r[i] == Normal(s[i])
    decreases s
  {
    seq(|s|, i requires 0 <= i < |s| => Normal(s[i]))
  }

  // ---------- numbers ----------

  lemma {:induction false} RationalReads(num: int, den: Positive)
    ensures DecodeRational(Print(num), Print(den)) == NormalNumber(Rational(num, den))
  {
    SpelledRational(num, den);
  }

  lemma {:induction false} MagnitudeReads(n: Number)
    ensures DecodeMagnitude(EncodeMagnitude(n)) == NormalNumber(n)
  {
    match n
    case BigInt(k) => ParsePrint(k);
    case Rational(num, den) => RationalReads(num, den);
    case _ =>
  }

  lemma {:induction false} NumberReads(n: Number)
    ensures Decode(EncodeNumber(n)) == Normal(Num(n))
  {
    match n
    case BigInt(k) => BigIntReads(k);
    case Rational(num, den) => RationalNumberReads(num, den);
    case _ =>
  }

  lemma {:induction false} BigIntReads(k: int)
    ensures Decode(EncodeNumber(BigInt(k))) == Num(NewInteger(k)) == Normal(Num(BigInt(k)))
  {
    if !FitsInt64(k) {
      BigDigitsRead(k, Print(k));
    }
  }

  lemma {:induction false} BigDigitsRead(k: int, digits: string)
    requires digits == Print(k)
    ensures Decode(WBigInt(digits)) == Num(NewInteger(k))
  {
    ParsePrint(k);
  }

  lemma {:induction false} RationalNumberReads(num: int, den: Positive)
    ensures Decode(EncodeNumber(Rational(num, den))) == Normal(Num(Rational(num, den)))
  {
    RationalReads(num, den);
  }

  lemma {:induction false} QuantityReads(q: Quantity)
    requires q.magnitude.Some?
    ensures DecodeQuantity(EncodeQuantity(q).value) ==
            if HasNormalNumber(q.magnitude) then Some(NormalQuantity(q)) else None
  {
    MagnitudeReads(q.magnitude.value);
  }

  lemma {:induction false} QuantitiesRead(s: seq<Quantity>, sent: seq<WireQuantity>)
    requires EncodeQuantities(s) == Ok(sent)
    ensures AllDecode(sent) <==> AllNormalQuantities(s)
    ensures AllNormalQuantities(s) ==> DecodeQuantities(sent) == NormalQuantities(s)
  {
    forall i | 0 <= i < |s|
      ensures DecodeQuantity(sent[i]) == if HasNormalNumber(s[i].magnitude) then Some(NormalQuantity(s[i])) else None
    {
      assert EncodeQuantity(s[i]) == Ok(sent[i]);
      QuantityReads(s[i]);
    }
    if AllNormalQuantities(s) {
      assert forall i | 0 <= i < |s| :: DecodeQuantities(sent)[i] == NormalQuantities(s)[i];
    }
  }

  lemma {:induction false} ComponentReads(c: Option<Number>)
    ensures var read := Decode(if c.None? then WNil else EncodeNumber(c.value));
            (read.Num? <==> HasNormalNumber(c)) &&
            (HasNormalNumber(c) ==> Some(read.num) == NormalNumber(c.value))
  {
    if c.Some? {
      NumberReads(c.value);
    }
  }

  lemma {:induction false} ComponentsRead(s: seq<Option<Number>>, read: seq<Value>)
    requires read == DecodeAll(EncodeComponents(s))
    ensures (forall i | 0 <= i < |read| :: read[i].Num?) <==> AllNormalComponents(s)
    ensures AllNormalComponents(s) ==> NumbersIn(read) == NormalComponents(s)
  {
    forall i | 0 <= i < |s|
      ensures read[i].Num? <==> HasNormalNumber(s[i])
      ensures HasNormalNumber(s[i]) ==> Some(read[i].num) == NormalNumber(s[i].value)
    {
      ComponentReads(s[i]);
    }
    if AllNormalComponents(s) {
      assert forall i | 0 <= i < |s| :: NumbersIn(read)[i] == NormalComponents(s)[i];
    }
  }

  // ---------- one kind at a time ----------

  lemma {:induction false} VectorDecodes(sent: seq<Wire>, read: seq<Value>)
    requires read == DecodeAll(sent)
    ensures Decode(WVector(sent)) ==
            if forall i | 0 <= i < |read| :: read[i].Num? then Vector(NumbersIn(read)) else Null(VECTOR_NOT_NUMERIC)
  {
  }

  lemma {:induction false} NormalVector(s: seq<Option<Number>>)
    ensures Normal(Vector(s)) ==
            if AllNormalComponents(s) then Vector(NormalComponents(s)) else Null(VECTOR_NOT_NUMERIC)
  {
  }

  lemma {:induction false} VectorSends(s: seq<Option<Number>>)
    ensures Encode(Vector(s)) == Ok(WVector(EncodeComponents(s)))
  {
  }

  lemma {:induction false} VectorReads(s: seq<Option<Number>>)
    ensures Encode(Vector(s)).Ok? && Decode(Encode(Vector(s)).value) == Normal(Vector(s))
  {
    var read := DecodeAll(EncodeComponents(s));
    VectorSends(s);
    ComponentsRead(s, read);
    VectorDecodes(EncodeComponents(s), read);
    NormalVector(s);
  }

  lemma {:induction false} QuantityValueDecodes(q: Quantity, sent: WireQuantity)
    requires DecodeQuantity(sent) == if HasNormalNumber(q.magnitude) then Some(NormalQuantity(q)) else None
    ensures Decode(WQuantity(sent)) == Normal(QuantityValue(q))
  {
  }

  lemma {:induction false} QuantityValueSends(q: Quantity)
    requires Encode(QuantityValue(q)).Ok?
    ensures q.magnitude.Some? && Encode(QuantityValue(q)) == Ok(WQuantity(EncodeQuantity(q).value))
  {
  }

  lemma {:induction false} QuantityValueReads(q: Quantity)
    requires Encode(QuantityValue(q)).Ok?
    ensures Decode(Encode(QuantityValue(q)).value) == Normal(QuantityValue(q))
  {
    QuantityValueSends(q);
    QuantityReads(q);
    QuantityValueDecodes(q, EncodeQuantity(q).value);
  }

  lemma {:induction false} VectorQuantitySends(s: seq<Quantity>)
    requires Encode(VectorQuantity(s)).Ok?
    ensures EncodeQuantities(s).Ok?
    ensures Encode(VectorQuantity(s)) == Ok(WVectorQuantity(EncodeQuantities(s).value))
  {
  }

  predicate ReadQuantities(s: seq<Quantity>, sent: seq<WireQuantity>) {
    |sent| == |s| && (AllDecode(sent) <==> AllNormalQuantities(s)) &&
    (AllDecode(sent) && AllNormalQuantities(s) ==> DecodeQuantities(sent) == NormalQuantities(s))
  }

  lemma {:induction false} VectorQuantityDecodes(s: seq<Quantity>, sent: seq<WireQuantity>)
    requires ReadQuantities(s, sent)
    ensures Decode(WVectorQuantity(sent)) == Normal(VectorQuantity(s))
  {
  }

  lemma {:induction false} VectorQuantityReads(s: seq<Quantity>)
    requires Encode(VectorQuantity(s)).Ok?
    ensures Decode(Encode(VectorQuantity(s)).value) == Normal(VectorQuantity(s))
  {
    VectorQuantitySends(s);
    QuantitiesRead(s, EncodeQuantities(s).value);
    VectorQuantityDecodes(s, EncodeQuantities(s).value);
  }

  lemma {:induction false} TensorSends(d: seq<Int64>, s: seq<Quantity>)
    requires Encode(TensorQuantity(d, s)).Ok?
    ensures Fills(d, |s|) && EncodeQuantities(s).Ok?
    ensures Encode(TensorQuantity(d, s)) == Ok(WTensorQuantity(d, EncodeQuantities(s).value))
  {
  }

  lemma {:induction false} TensorDecodes(d: seq<Int64>, s: seq<Quantity>, sent: seq<WireQuantity>)
    requires ReadQuantities(s, sent) && Fills(d, |s|)
    ensures Decode(WTensorQuantity(d, sent)) == Normal(TensorQuantity(d, s))
  {
  }

  lemma {:induction false} TensorReads(d: seq<Int64>, s: seq<Quantity>)
    requires Encode(TensorQuantity(d, s)).Ok?
    ensures Decode(Encode(TensorQuantity(d, s)).value) == Normal(TensorQuantity(d, s))
  {
    TensorSends(d, s);
    QuantitiesRead(s, EncodeQuantities(s).value);
    TensorDecodes(d, s, EncodeQuantities(s).value);
  }

  lemma {:induction false} ReferenceReads(r: Reference)
    ensures Encode(MeasurementRef(r)).Ok?
    ensures Decode(Encode(MeasurementRef(r)).value) == Normal(MeasurementRef(r))
  {
  }

  lemma {:induction false} PlainReads(v: Value)
    requires !Nested(v) && Encode(v).Ok?
    requires !v.Num? && !v.Vector? && !v.QuantityValue? && !v.VectorQuantity? && !v.TensorQuantity?
    requires !v.MeasurementRef?
    ensures Decode(Encode(v).value) == Normal(v)
  {
  }

  lemma {:induction false} FlatReads(v: Value)
    requires !Nested(v) && Encode(v).Ok?
    ensures Decode(Encode(v).value) == Normal(v)
  {
    if v.Num? {
      NumberReads(v.num);
    } else if v.Vector? {
      VectorReads(v.components);
    } else if v.QuantityValue? {
      QuantityValueReads(v.quantity);
    } else if v.VectorQuantity? {
      VectorQuantityReads(v.axes);
    } else if v.TensorQuantity? {
      TensorReads(v.dimensions, v.quantities);
    } else if v.MeasurementRef? {
      ReferenceReads(v.ref);
    } else {
      PlainReads(v);
    }
  }

  // ---------- collections ----------

  lemma {:induction false} UnequalIsNoRepeat(s: seq<Value>)
    ensures PairwiseUnequal(s) <==> !Repeats(s)
  {
    RepeatsIsSomePairEqual(s);
  }

  lemma {:induction false} SetReads(sent: seq<Wire>, members: seq<Value>)
    requires members == DecodeAll(sent)
    ensures Decode(WSet(sent)) == if PairwiseUnequal(members) then Set(members) else Null(SET_REPEATS)
  {
    UnequalIsNoRepeat(members);
  }

  lemma {:induction false} SequenceReads(s: seq<Value>, sent: seq<Wire>)
    requires DecodeAll(sent) == NormalAll(s)
    ensures Decode(WSequence(sent)) == Normal(Sequence(s))
  {
  }

  lemma {:induction false} ArrayReads(d: seq<Int64>, s: seq<Value>, sent: seq<Wire>)
    requires DecodeAll(sent) == NormalAll(s)
    ensures Decode(WArray(d, sent)) == Normal(Array(d, s))
  {
    assert |sent| == |DecodeAll(sent)| == |s|;
  }

  lemma {:induction false} NormalSet(s: seq<Value>)
    ensures Normal(Set(s)) == if PairwiseUnequal(NormalAll(s)) then Set(NormalAll(s)) else Null(SET_REPEATS)
  {
  }

  lemma {:induction false} CollectionReads(v: Value, sent: seq<Wire>)
    requires (v.Sequence? || v.Array? || v.Set?) && Encode(v).Ok?
    requires EncodeAll(v.elements) == Ok(sent) && DecodeAll(sent) == NormalAll(v.elements)
    ensures Decode(Encode(v).value) == Normal(v)
  {
    SentSetsDoNotRepeat(v);
    CollectionEncodes(v, sent);
    if v.Sequence? {
      SequenceReads(v.elements, sent);
    } else if v.Array? {
      ArrayReads(v.dimensions, v.elements, sent);
    } else {
      SetReads(sent, NormalAll(v.elements));
      NormalSet(v.elements);
    }
  }

  lemma {:induction false} SentSetsDoNotRepeat(v: Value)
    requires Encode(v).Ok?
    ensures v.Set? ==> !Repeats(v.elements)
  {
  }

  lemma {:induction false} SentCollectionsSendElements(v: Value)
    requires (v.Sequence? || v.Array? || v.Set?) && Encode(v).Ok?
    ensures EncodeAll(v.elements).Ok?
  {
  }

  lemma {:induction false} LiteralReads(v: Value)
    requires v.EnumLiteral? && Encode(v).Ok?
    requires Encode(v.scalar).Ok? && Decode(Encode(v.scalar).value) == Normal(v.scalar)
    ensures Decode(Encode(v).value) == Normal(v)
  {
  }

  lemma {:induction false} SentLiteralsSendScalars(v: Value)
    requires v.EnumLiteral? && Encode(v).Ok?
    ensures Encode(v.scalar).Ok?
  {
  }

  /** What is sent is read in its normal form, at every depth. */
  lemma {:induction false} ReadsAsNormal(v: Value)
    requires Encode(v).Ok?
    ensures Decode(Encode(v).value) == Normal(v)
    decreases v, 1
  {
    if !Nested(v) {
      FlatReads(v);
    } else if v.EnumLiteral? {
      SentLiteralsSendScalars(v);
      ReadsAsNormal(v.scalar);
      LiteralReads(v);
    } else {
      SentCollectionsSendElements(v);
      ElementsReadAsNormal(v, v.elements);
      CollectionReads(v, EncodeAll(v.elements).value);
    }
  }

  lemma {:induction false} ElementsReadAsNormal(v: Value, s: seq<Value>)
    requires EncodeAll(s).Ok? && forall i | 0 <= i < |s| :: s[i] < v
    ensures DecodeAll(EncodeAll(s).value) == NormalAll(s)
    decreases v, 0
  {
    var read := DecodeAll(EncodeAll(s).value);
    forall i | 0 <= i < |s| ensures read[i] == NormalAll(s)[i] {
      ReadsAsNormal(s[i]);
    }
  }

  /** The normal form is the value itself exactly on canonical values, is canonical,
      and settles at once. */
  lemma {:induction false} NormalIsCanonical(v: Value)
    requires Sendable(v)
    ensures Canonical(Normal(v), true)
    ensures Normal(v) == v <==> Canonical(v, true)
  {
    EncodesExactlySendable(v);
    ReadsAsNormal(v);
    DecodedIsCanonical(Encode(v).value);
    RoundTripsExactlyCanonical(v);
  }
}
