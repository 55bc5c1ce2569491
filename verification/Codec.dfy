/** Values to and from the wire: the encoder refuses what the service would, the
    decoder reads every message and normalises it. */
module Codec {
  import opened Numbers
  import opened Options
  import opened Units
  import opened Values
  import opened Decimal
  import opened Wire

  // ---------- encoding ----------

  const NO_MAGNITUDE := "quantity carries no magnitude"
  const NO_CALC := "a function names no calc"
  const NO_ELEMENT := "a metaobject names no element"
  const MEMBER_TWICE := "set lists a member twice"
  const TENSOR_UNFILLED := "tensor components do not fill its dimensions"
  const UNSET_SENT := "unset is not a value a caller can supply"
  const UNDETERMINED_SENT := "undetermined is not a value a caller can supply"

  function EncodeNumber(n: Number): Wire {
    match n
    case Int(i) => WInt(i)
    case BigInt(n) => if FitsInt64(n) then WInt(n) else WBigInt(Print(n))
    case Rational(num, den) => WRational(Print(num), Print(den))
    case Real(x) => WReal(x)
  }

  function EncodeComponents(s: seq<Option<Number>>): (r: seq<Wire>)
    ensures |r| == |s|
    ensures forall i | 0 <= i < |s| :: r[i] == if s[i].None? then WNil else EncodeNumber(s[i].value)
  {
    seq(|s|, i requires 0 <= i < |s| => if s[i].None? then WNil else EncodeNumber(s[i].value))
  }

  function EncodeMagnitude(n: Number): Magnitude {
    match n
    case Int(i) => IntMagnitude(i)
    case BigInt(n) => if FitsInt64(n) then IntMagnitude(n) else BigIntMagnitude(Print(n))
    case Rational(num, den) => RationalMagnitude(Print(num), Print(den))
    case Real(x) => RealMagnitude(x)
  }

  function EncodeQuantity(q: Quantity): Result<WireQuantity> {
    if q.magnitude.None? then Err(NO_MAGNITUDE)
    else Ok(WireQuantity(EncodeMagnitude(q.magnitude.value), q.unit, q.term))
  }

  function EncodeQuantities(s: seq<Quantity>): (r: Result<seq<WireQuantity>>)
    ensures r.Ok? <==> forall i | 0 <= i < |s| :: s[i].magnitude.Some?
    ensures r.Ok? ==> |r.value| == |s| && forall i | 0 <= i < |s| :: EncodeQuantity(s[i]) == Ok(r.value[i])
  {
    if s == [] then Ok([])
    else match EncodeQuantity(s[0])
      case Err(message) => Err(message)
      case Ok(first) =>
        match EncodeQuantities(s[1..])
        case Err(message) => Err(message)
        case Ok(rest) => Ok([first] + rest)
  }

  function Encode(v: Value): Result<Wire>
    decreases v
  {
    match v
    case Nil => Ok(WNil)
    case Num(n) => Ok(EncodeNumber(n))
    case ComplexValue(re, im) => Ok(WComplex(re, im))
    case Bool(b) => Ok(WBool(b))
    case String(text) => Ok(WString(text))
    case InstanceID(id) => Ok(WInstanceId(id))
    case Null(reason) => Ok(WNull(reason))
    case Sequence(s) =>
      (match EncodeAll(s) case Err(message) => Err(message) case Ok(sent) => Ok(WSequence(sent)))
    case QuantityValue(q) =>
      (match EncodeQuantity(q) case Err(message) => Err(message) case Ok(sent) => Ok(WQuantity(sent)))
    case EnumLiteral(literalId, enumerationId, name, scalar) =>
      (match Encode(scalar)
       case Err(message) => Err(message)
       case Ok(sent) => Ok(WEnumLiteral(literalId, enumerationId, name, sent)))
    case Array(d, s) =>
      (match EncodeAll(s) case Err(message) => Err(message) case Ok(sent) => Ok(WArray(d, sent)))
    case Vector(s) => Ok(WVector(EncodeComponents(s)))
    case VectorQuantity(s) =>
      (match EncodeQuantities(s) case Err(message) => Err(message) case Ok(sent) => Ok(WVectorQuantity(sent)))
    case MeasurementRef(r) => Ok(WMeasurementRef(r))
    case Function(calcId, self) => if calcId == "" then Err(NO_CALC) else Ok(WFunction(calcId, self))
    case Set(s) =>
      if Repeats(s) then Err(MEMBER_TWICE)
      else (match EncodeAll(s) case Err(message) => Err(message) case Ok(sent) => Ok(WSet(sent)))
    case TensorQuantity(d, s) =>
      if !Fills(d, |s|) then Err(TENSOR_UNFILLED)
      else (match EncodeQuantities(s)
            case Err(message) => Err(message)
            case Ok(sent) => Ok(WTensorQuantity(d, sent)))
    case Metaobject(elementId, metaclassId) =>
      if elementId == "" then Err(NO_ELEMENT) else Ok(WMetaobject(elementId, metaclassId))
    case Unset => Err(UNSET_SENT)
    case Undetermined(_, _, _) => Err(UNDETERMINED_SENT)
  }

  /** Every element, or the refusal of the first that has one. */
  function EncodeAll(s: seq<Value>): (r: Result<seq<Wire>>)
    ensures r.Ok? <==> forall i | 0 <= i < |s| :: Encode(s[i]).Ok?
    ensures r.Ok? ==> |r.value| == |s| && forall i | 0 <= i < |s| :: Encode(s[i]) == Ok(r.value[i])
    ensures r.Err? ==> exists i | 0 <= i < |s| ::
                         Encode(s[i]) == Err(r.message) && forall j | 0 <= j < i :: Encode(s[j]).Ok?
    decreases s
  {
    if s == [] then Ok([])
    else match Encode(s[0])
      case Err(message) => Err(message)
      case Ok(first) =>
        match EncodeAll(s[1..])
        case Err(message) =>
          var i :| 0 <= i < |s[1..]| && Encode(s[1..][i]) == Err(message) &&
                   forall j | 0 <= j < i :: Encode(s[1..][j]).Ok?;
          assert Encode(s[i + 1]) == Err(message);
          assert forall j | 0 <= j < i + 1 :: Encode(s[j]).Ok? by {
            assert forall j | 0 < j < i + 1 :: s[j] == s[1..][j - 1];
          }
          Err(message)
        case Ok(rest) => Ok([first] + rest)
  }

  /** The appending loop of the sequence, array and set arms. */
  method EncodeElements(s: seq<Value>) returns (r: Result<seq<Wire>>)
    ensures r == EncodeAll(s)
  {
    var sent: seq<Wire> := [];
    for i := 0 to |s|
      invariant |sent| == i
      invariant forall j | 0 <= j < i :: Encode(s[j]) == Ok(sent[j])
    {
      match Encode(s[i])
      case Err(message) => return Err(message);
      case Ok(element) => sent := sent + [element];
    }
    assert EncodeAll(s).Ok? && EncodeAll(s).value == sent;
    return Ok(sent);
  }

  // ---------- decoding ----------

  const BIG_NOT_DECIMAL := "unsupported: a big integer that is not decimal"
  const RATIONAL_NOT_LOWEST := "unsupported: a rational that is not in lowest terms"
  const QUANTITY_BARE := "unsupported: quantity without a magnitude"
  const ARRAY_MISSHAPEN := "unsupported: array elements do not fill its dimensions"
  const VECTOR_NOT_NUMERIC := "unsupported: vector with a non-numeric component"
  const VECTOR_QUANTITY_EMPTY := "unsupported: vector quantity without components"
  const VECTOR_QUANTITY_BARE := "unsupported: vector quantity with a component without a magnitude"
  const REF_NAMELESS := "unsupported: measurement reference naming no unit"
  const REF_UNREDUCED := "unsupported: measurement reference without its reduction"
  const FUNCTION_NAMELESS := "unsupported: function naming no calc"
  const SET_REPEATS := "unsupported: set lists a member twice"
  const TENSOR_MISSHAPEN := "unsupported: tensor components do not fill its dimensions"
  const TENSOR_BARE := "unsupported: tensor quantity with a component without a magnitude"
  const METAOBJECT_NAMELESS := "unsupported: metaobject naming no element"
  const ARM_UNKNOWN := "unsupported: a value arm this client does not know"

  function DecodeRational(numerator: string, denominator: string): Option<Number> {
    match CanonicalRational(numerator, denominator)
    case None => None
    case Some(q) => Some(Rational(q.num, q.den))
  }

  function DecodeMagnitude(m: Magnitude): Option<Number> {
    match m
    case NoMagnitude => None
    case IntMagnitude(i) => Some(Int(i))
    case BigIntMagnitude(digits) =>
      if Parse(digits).None? then None else Some(NewInteger(Parse(digits).value))
    case RationalMagnitude(numerator, denominator) => DecodeRational(numerator, denominator)
    case RealMagnitude(x) => Some(Real(x))
  }

  function DecodeQuantity(q: WireQuantity): Option<Quantity> {
    match DecodeMagnitude(q.magnitude)
    case None => None
    case Some(n) => Some(Quantity(Some(n), q.unit, q.term))
  }

  predicate AllDecode(s: seq<WireQuantity>) {
    forall i | 0 <= i < |s| :: DecodeQuantity(s[i]).Some?
  }

  function DecodeQuantities(s: seq<WireQuantity>): (r: seq<Quantity>)
    requires AllDecode(s)
    ensures |r| == |s| && forall i | 0 <= i < |s| :: DecodeQuantity(s[i]) == Some(r[i])
  {
    seq(|s|, i requires 0 <= i < |s| => DecodeQuantity(s[i]).value)
  }

  function Decode(w: Wire): Value
    decreases w
  {
    match w
    case WNil => Nil
    case WInt(i) => Num(Int(i))
    case WBigInt(digits) =>
      if Parse(digits).None? then Null(BIG_NOT_DECIMAL) else Num(NewInteger(Parse(digits).value))
    case WRational(numerator, denominator) =>
      var q := DecodeRational(numerator, denominator);
      if q.None? then Null(RATIONAL_NOT_LOWEST) else Num(q.value)
    case WReal(x) => Num(Real(x))
    case WComplex(re, im) => ComplexValue(re, im)
    case WBool(b) => Bool(b)
    case WString(text) => String(text)
    case WInstanceId(id) => InstanceID(id)
    case WSequence(s) => Sequence(DecodeAll(s))
    case WNull(reason) => Null(reason)
    case WQuantity(q) =>
      var read := DecodeQuantity(q);
      if read.None? then Null(QUANTITY_BARE) else QuantityValue(read.value)
    case WEnumLiteral(literalId, enumerationId, name, scalar) =>
      EnumLiteral(literalId, enumerationId, name, Decode(scalar))
    case WUnset => Unset
    case WUndetermined(why, lower, upper) => Undetermined(why, lower, upper)
    case WArray(d, s) =>
      if !Fills(d, |s|) then Null(ARRAY_MISSHAPEN) else Array(d, DecodeAll(s))
    case WVector(s) =>
      var members := DecodeAll(s);
      if forall i | 0 <= i < |members| :: members[i].Num? then Vector(NumbersIn(members))
      else Null(VECTOR_NOT_NUMERIC)
    case WVectorQuantity(s) =>
      if |s| == 0 then Null(VECTOR_QUANTITY_EMPTY)
      else if !AllDecode(s) then Null(VECTOR_QUANTITY_BARE)
      else VectorQuantity(DecodeQuantities(s))
    case WMeasurementRef(ref) =>
      if ref.unit == "" && ref.term.None? && ref.unitId == "" then Null(REF_NAMELESS)
      else if ref.term.None? then Null(REF_UNREDUCED)
      else MeasurementRef(ref)
    case WFunction(calcId, self) => if calcId == "" then Null(FUNCTION_NAMELESS) else Function(calcId, self)
    case WSet(s) =>
      var members := DecodeAll(s);
      if Repeats(members) then Null(SET_REPEATS) else Set(members)
    case WTensorQuantity(d, s) =>
      if !Fills(d, |s|) then Null(TENSOR_MISSHAPEN)
      else if !AllDecode(s) then Null(TENSOR_BARE)
      else TensorQuantity(d, DecodeQuantities(s))
    case WMetaobject(elementId, metaclassId) =>
      if elementId == "" then Null(METAOBJECT_NAMELESS) else Metaobject(elementId, metaclassId)
    case WUnknown => Null(ARM_UNKNOWN)
  }

  function DecodeAll(s: seq<Wire>): (r: seq<Value>)
    ensures |r| == |s| && forall i | 0 <= i < |s| :: r[i] == Decode(s[i])
    decreases s
  {
    seq(|s|, i requires 0 <= i < |s| => Decode(s[i]))
  }

  function NumbersIn(s: seq<Value>): (r: seq<Option<Number>>)
    requires forall i | 0 <= i < |s| :: s[i].Num?
    ensures |r| == |s| && forall i | 0 <= i < |s| :: r[i] == Some(s[i].num)
  {
    seq(|s|, i requires 0 <= i < |s| => Some(s[i].num))
  }

  /** The set arm's loop, which checks each member against those read so far. */
  method DecodeSet(elements: seq<Wire>) returns (v: Value)
    ensures v == Decode(WSet(elements))
  {
    var out: seq<Value> := [];
    ghost var members := DecodeAll(elements);
    for i := 0 to |elements|
      invariant out == members[..i]
      invariant forall j | 0 <= j < i :: !Contains(members[..j], members[j])
    {
      var member := Decode(elements[i]);
      if Contains(out, member) {
        assert Contains(members[..i], members[i]);
        return Null(SET_REPEATS);
      }
      out := out + [member];
    }
    assert out == members;
    return Set(out);
  }

  /** The vector arm's loop, which gives up at the first component that is no number. */
  method DecodeVector(elements: seq<Wire>) returns (v: Value)
    ensures v == Decode(WVector(elements))
  {
    var out: seq<Option<Number>> := [];
    ghost var members := DecodeAll(elements);
    for i := 0 to |elements|
      invariant |out| == i
      invariant forall j | 0 <= j < i :: members[j].Num? && out[j] == Some(members[j].num)
    {
      var member := Decode(elements[i]);
      if !member.Num? {
        assert !members[i].Num?;
        return Null(VECTOR_NOT_NUMERIC);
      }
      out := out + [Some(member.num)];
    }
    assert out == NumbersIn(members);
    return Vector(out);
  }
}
