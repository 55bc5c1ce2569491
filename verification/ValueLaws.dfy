/** The laws of the client's equality and of its sets, over every value: nested
    sets, absent values in any spelling, numbers and quantities of any kind. */
module ValueLaws {
  import opened Numbers
  import opened Options
  import opened Units
  import opened Values

  // ---------- an equivalence ----------

  lemma {:induction false} EqualIsSymmetric(a: Value, b: Value)
    ensures Equal(a, b) == Equal(b, a)
  {
    EqualIsSameMeaning(a, b);
    EqualIsSameMeaning(b, a);
  }

  lemma {:induction false} EqualIsTransitive(a: Value, b: Value, c: Value)
    requires Equal(a, b) && Equal(b, c)
    ensures Equal(a, c)
  {
    EqualIsSameMeaning(a, b);
    EqualIsSameMeaning(b, c);
    EqualIsSameMeaning(a, c);
  }

  predicate NotNaN(n: Number) {
    n.Real? ==> !n.x.NaN?
  }

  predicate WellFormedQuantity(q: Quantity) {
    match q.term
    case None => q.magnitude.Some? && NotNaN(q.magnitude.value)
    case Some(t) => !t.ZeroScale() && (q.magnitude.Some? ==> NotNaN(q.magnitude.value))
  }

  /** No NaN, no missing number, no zero scale, at any depth an equality looks at. */
  predicate WellFormed(v: Value)
    decreases v
  {
    match v
    case Num(n) => NotNaN(n)
    case ComplexValue(re, im) => !re.NaN? && !im.NaN?
    case Sequence(x) => forall i | 0 <= i < |x| :: WellFormed(x[i])
    case Set(x) => forall i | 0 <= i < |x| :: WellFormed(x[i])
    case Array(_, x) => forall i | 0 <= i < |x| :: WellFormed(x[i])
    case Vector(x) => forall i | 0 <= i < |x| :: x[i].Some? && NotNaN(x[i].value)
    case VectorQuantity(x) => forall i | 0 <= i < |x| :: WellFormedQuantity(x[i])
    case TensorQuantity(_, x) => forall i | 0 <= i < |x| :: WellFormedQuantity(x[i])
    case QuantityValue(q) => WellFormedQuantity(q)
    case MeasurementRef(r) => r.term.Some? ==> !r.term.value.ZeroScale()
    case _ => true
  }

  lemma {:induction false} WellFormedQuantityDenotes(q: Quantity)
    ensures WellFormedQuantity(q) <==> AmountOf(q).Some?
  {
  }

  lemma {:induction false} WellFormedMeans(v: Value)
    ensures WellFormed(v) <==> MeaningOf(v).Some?
    decreases v
  {
    if v.Sequence? || v.Set? || v.Array? {
      AllWellFormedMean(v, v.elements);
    } else {
      FlatWellFormedMeans(v);
    }
  }

  lemma {:induction false} FlatWellFormedMeans(v: Value)
    requires !v.Sequence? && !v.Set? && !v.Array?
    ensures WellFormed(v) <==> MeaningOf(v).Some?
  {
    if v.VectorQuantity? {
      AllWellFormedDenote(v.axes);
    } else if v.TensorQuantity? {
      AllWellFormedDenote(v.quantities);
    } else if v.QuantityValue? {
      WellFormedQuantityDenotes(v.quantity);
    }
  }

  lemma {:induction false} AllWellFormedMean(v: Value, x: seq<Value>)
    requires forall i | 0 <= i < |x| :: x[i] < v
    ensures (forall i | 0 <= i < |x| :: WellFormed(x[i])) <==> AllMeaning(x)
    decreases v, 0
  {
    forall i | 0 <= i < |x| ensures WellFormed(x[i]) <==> MeaningOf(x[i]).Some? {
      WellFormedMeans(x[i]);
    }
  }

  lemma {:induction false} AllWellFormedDenote(x: seq<Quantity>)
    ensures (forall i | 0 <= i < |x| :: WellFormedQuantity(x[i])) <==> HaveAmounts(x)
  {
    forall i | 0 <= i < |x| ensures WellFormedQuantity(x[i]) <==> AmountOf(x[i]).Some? {
      WellFormedQuantityDenotes(x[i]);
    }
  }

  /** A value equals itself exactly when it is well formed. */
  lemma {:induction false} EqualIsReflexiveExactlyOnWellFormed(v: Value)
    ensures Equal(v, v) <==> WellFormed(v)
  {
    EqualIsSameMeaning(v, v);
    WellFormedMeans(v);
  }

  lemma {:induction false} BaseMagnitudeAt(q: Quantity, x: real)
    requires q.term.Some? && !q.term.value.ZeroScale()
    requires PointOf(MagnitudeOf(q)) == Some(Axis(At(x)))
    ensures BaseMagnitude(q).IsFinite()
    ensures BaseMagnitude(q).Num() == x * q.term.value.scaleNum / q.term.value.scaleDen
  {
    match q.magnitude.value
    case Real(f) => assert f.IsFinite() && f.Num() == x;
    case n => assert ExactOf(n) == Some(x);
  }

  /** Two quantities of any magnitude kind and any scales are equal exactly when
      their summed exponents agree and so do magnitude·num/den. */
  lemma {:induction false} QuantitiesEqualOverBaseUnits(a: Quantity, b: Quantity, x: real, y: real)
    requires a.term.Some? && b.term.Some?
    requires !a.term.value.ZeroScale() && !b.term.value.ZeroScale()
    requires PointOf(MagnitudeOf(a)) == Some(Axis(At(x))) && PointOf(MagnitudeOf(b)) == Some(Axis(At(y)))
    ensures QuantityEqual(a, b) <==>
            Exponents(a.term.value.factors) == Exponents(b.term.value.factors) &&
            x * a.term.value.scaleNum / a.term.value.scaleDen == y * b.term.value.scaleNum / b.term.value.scaleDen
  {
    QuantityEqualIsSameAmount(a, b);
    BaseMagnitudeAt(a, x);
    BaseMagnitudeAt(b, y);
    FloatEqIsSameCoordinate(BaseMagnitude(a), BaseMagnitude(b));
  }

  // ---------- sets ----------

  /** Equal values are members of the same sets. */
  lemma {:induction false} MembershipRespectsEqual(s: seq<Value>, v: Value, w: Value)
    requires Equal(v, w)
    ensures Contains(s, v) == Contains(s, w)
  {
    EqualIsSameMeaning(v, w);
    ContainsIsMeansMember(s, v);
    ContainsIsMeansMember(s, w);
    if MeansMember(s, v) {
      var i :| 0 <= i < |s| && SameMeaning(s[i], v);
      assert SameMeaning(s[i], w);
    }
    if MeansMember(s, w) {
      var i :| 0 <= i < |s| && SameMeaning(s[i], w);
      assert SameMeaning(s[i], v);
    }
  }

  ghost predicate SameMembership(s: seq<Value>, t: seq<Value>) {
    forall v: Value :: Contains(s, v) == Contains(t, v)
  }

  /** Extensionality: well-formed sets are Equal exactly when they contain the
      same values, whatever the order, repetition or spelling of their members. */
  lemma {:induction false} SetsAreTheirMembers(s: seq<Value>, t: seq<Value>)
    requires WellFormed(Set(s)) && WellFormed(Set(t))
    ensures Equal(Set(s), Set(t)) <==> SameMembership(s, t)
  {
    SubsetIsMeaningSubset(s, t);
    SubsetIsMeaningSubset(t, s);
    if SameMembership(s, t) {
      MembershipGivesSubset(s, t);
      MembershipGivesSubset(t, s);
      if s == [] || t == [] {
        NoMembers(s, t);
        NoMembers(t, s);
      }
    }
    if Equal(Set(s), Set(t)) {
      forall v: Value ensures Contains(s, v) == Contains(t, v) {
        SubsetKeepsMembers(s, t, v);
        SubsetKeepsMembers(t, s, v);
      }
    }
  }

  lemma {:induction false} NoMembers(s: seq<Value>, t: seq<Value>)
    requires s == [] && MeansSubset(t, s)
    ensures t == []
  {
    assert t != [] ==> MeansMember(s, t[0]);
  }

  lemma {:induction false} MembershipGivesSubset(s: seq<Value>, t: seq<Value>)
    requires WellFormed(Set(s)) && SameMembership(s, t)
    ensures MeansSubset(s, t)
  {
    forall i | 0 <= i < |s| ensures MeansMember(t, s[i]) {
      WellFormedMeans(s[i]);
      assert SameMeaning(s[i], s[i]);
      ContainsIsMeansMember(s, s[i]);
      ContainsIsMeansMember(t, s[i]);
      assert Contains(s, s[i]) == Contains(t, s[i]);
    }
  }

  lemma {:induction false} SubsetKeepsMembers(s: seq<Value>, t: seq<Value>, v: Value)
    requires MeansSubset(s, t) || s == []
    ensures Contains(s, v) ==> Contains(t, v)
  {
    ContainsIsMeansMember(s, v);
    ContainsIsMeansMember(t, v);
    if MeansMember(s, v) {
      var i :| 0 <= i < |s| && SameMeaning(s[i], v);
      assert MeansMember(t, s[i]);
      var j :| 0 <= j < |t| && SameMeaning(t[j], s[i]);
      assert SameMeaning(t[j], v);
    }
  }

  lemma {:induction false} BothEmptyOrNeither(s: seq<Value>, t: seq<Value>)
    requires forall v :: v in s <==> v in t
    ensures s == [] <==> t == []
  {
    if |s| > 0 {
      assert s[0] in t;
    }
    if |t| > 0 {
      assert t[0] in s;
    }
  }

  /** Listing the same members in any order, any number of times, is one set. */
  lemma {:induction false} OrderAndRepetitionAreImmaterial(s: seq<Value>, t: seq<Value>)
    requires WellFormed(Set(s))
    requires forall v :: v in s <==> v in t
    ensures Equal(Set(s), Set(t))
  {
    EqualIsSameMeaning(Set(s), Set(t));
    WellFormedMeans(Set(s));
    BothEmptyOrNeither(s, t);
    if s != [] {
      SetMeaning(s);
      SetMeaning(t);
      SharedAllMean(s, t);
      SharedMeanings(s, t);
    }
  }

  lemma {:induction false} SharedAllMean(s: seq<Value>, t: seq<Value>)
    requires AllMeaning(s) && forall v :: v in t ==> v in s
    ensures AllMeaning(t)
  {
    forall i | 0 <= i < |t| ensures MeaningOf(t[i]).Some? {
      assert t[i] in s;
    }
  }

  lemma {:induction false} SharedMeanings(s: seq<Value>, t: seq<Value>)
    requires AllMeaning(s) && AllMeaning(t) && forall v :: v in s <==> v in t
    ensures MemberMeanings(s) == MemberMeanings(t)
  {
    forall m ensures m in MemberMeanings(s) <==> m in MemberMeanings(t) {
      SharedMeaning(s, t, m);
      SharedMeaning(t, s, m);
    }
  }

  lemma {:induction false} SharedMeaning(s: seq<Value>, t: seq<Value>, m: Meaning)
    requires AllMeaning(s) && AllMeaning(t) && forall v :: v in s ==> v in t
    ensures m in MemberMeanings(s) ==> m in MemberMeanings(t)
  {
    if m in MemberMeanings(s) {
      var i :| 0 <= i < |s| && MeaningOf(s[i]) == Some(m);
      assert s[i] in t;
    }
  }

  /** The duplicate check passes exactly the pairwise distinct lists. */
  lemma {:induction false} RepeatsIsSomePairEqual(s: seq<Value>)
    ensures Repeats(s) <==> exists i, j | 0 <= i < j < |s| :: Equal(s[i], s[j])
  {
    if Repeats(s) {
      var j :| 0 <= j < |s| && Contains(s[..j], s[j]);
      ContainsIsMeansMember(s[..j], s[j]);
      var i :| 0 <= i < |s[..j]| && SameMeaning(s[..j][i], s[j]);
      EqualIsSameMeaning(s[i], s[j]);
      assert Equal(s[i], s[j]);
    }
    if i, j :| 0 <= i < j < |s| && Equal(s[i], s[j]) {
      ContainsIsMeansMember(s[..j], s[j]);
      EqualIsSameMeaning(s[i], s[j]);
      assert SameMeaning(s[..j][i], s[j]);
      assert Contains(s[..j], s[j]);
    }
  }

  /** Lists whose members mean the same, position by position, repeat alike. */
  lemma {:induction false} RepeatsIsAboutMeanings(s: seq<Value>, t: seq<Value>)
    requires |s| == |t| && forall i | 0 <= i < |s| :: MeaningOf(s[i]) == MeaningOf(t[i])
    ensures Repeats(s) == Repeats(t)
  {
    RepeatsIsSomePairEqual(s);
    RepeatsIsSomePairEqual(t);
    forall i, j | 0 <= i < j < |s| ensures Equal(s[i], s[j]) == Equal(t[i], t[j]) {
      EqualIsSameMeaning(s[i], s[j]);
      EqualIsSameMeaning(t[i], t[j]);
    }
  }
}
