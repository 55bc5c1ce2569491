/** Which sets come back as sets: both directions of the codec refuse a repeated
    member, each by the members it sees. */
module CodecSets {
  import opened Numbers
  import opened Values
  import opened Wire
  import opened Codec
  import opened CodecLaws
  import opened CodecNormal

  /** A set that is sent comes back as a set exactly when the normal forms of its
      members are unequal, and holds these; else it comes back as the null that
      says a member repeats. */
  lemma {:induction false} SetsComeBackWhenNormalMembersDiffer(s: seq<Value>)
    requires Sendable(Set(s))
    ensures Encode(Set(s)).Ok?
    ensures Decode(Encode(Set(s)).value).Set? <==> PairwiseUnequal(NormalAll(s))
    ensures Decode(Encode(Set(s)).value) ==
            if PairwiseUnequal(NormalAll(s)) then Set(NormalAll(s)) else Null(SET_REPEATS)
  {
    EncodesExactlySendable(Set(s));
    ReadsAsNormal(Set(s));
    NormalSet(s);
  }

  lemma {:induction false} SetSends(s: seq<Value>, sent: seq<Wire>)
    requires EncodeAll(s) == Ok(sent)
    ensures Encode(Set(s)) == if Repeats(s) then Err(MEMBER_TWICE) else Ok(WSet(sent))
  {
  }

  /** Members that read as themselves stay apart: on them the two directions refuse
      the same lists. */
  lemma {:induction false} BothDirectionsRefuseTheSame(s: seq<Value>)
    requires EncodeAll(s).Ok? && forall i | 0 <= i < |s| :: Canonical(s[i], true)
    ensures Encode(Set(s)).Ok? <==> PairwiseUnequal(s)
    ensures Decode(WSet(EncodeAll(s).value)).Set? <==> PairwiseUnequal(s)
  {
    var sent := EncodeAll(s).value;
    ElementsRoundTrip(Set(s), s);
    SetSends(s, sent);
    SetReads(sent, s);
    UnequalIsNoRepeat(s);
  }

  // ---------- sets that do not come back ----------

  lemma {:induction false} NullsAreEqual(reason: string)
    ensures Equal(Null(reason), Null(reason))
  {
  }

  /** Two members whose normal form is one null merge. */
  lemma {:induction false} NullMembersMerge(a: Value, b: Value, reason: string)
    requires Sendable(a) && Sendable(b) && !Equal(a, b)
    requires Normal(a) == Null(reason) == Normal(b)
    ensures PairwiseUnequal([a, b]) && Encode(Set([a, b])).Ok?
    ensures Decode(Encode(Set([a, b])).value) == Null(SET_REPEATS)
  {
    var s := [a, b];
    assert PairwiseUnequal(s);
    UnequalIsNoRepeat(s);
    assert Sendable(Set(s));
    NullsAreEqual(reason);
    assert NormalAll(s)[0] == Null(reason) == NormalAll(s)[1];
    assert !PairwiseUnequal(NormalAll(s));
    SetsComeBackWhenNormalMembersDiffer(s);
  }

  lemma {:induction false} Misshapen(dimension: Int64)
    requires dimension > 1
    ensures Sendable(Array([dimension], [Nil])) && Normal(Array([dimension], [Nil])) == Null(ARRAY_MISSHAPEN)
  {
    assert !Fills([dimension], 1);
  }

  lemma {:induction false} OtherDimensionsApart(d: seq<Int64>, e: seq<Int64>, x: seq<Value>)
    requires d != e
    ensures !Equal(Array(d, x), Array(e, x))
  {
  }

  /** Two unequal arrays that fill no dimensions do. */
  lemma {:induction false} MisshapenMembersMerge()
    ensures var s := [Array([2], [Nil]), Array([3], [Nil])];
            PairwiseUnequal(s) && Encode(Set(s)).Ok? && Decode(Encode(Set(s)).value) == Null(SET_REPEATS)
  {
    Misshapen(2);
    Misshapen(3);
    assert [2][0] != [3][0];
    OtherDimensionsApart([2], [3], [Nil]);
    NullMembersMerge(Array([2], [Nil]), Array([3], [Nil]), ARRAY_MISSHAPEN);
  }

  lemma {:induction false} HeldRational(num: int, den: Positive)
    requires HeldByDouble(num, den)
    ensures Sendable(Num(Rational(num, den))) && Normal(Num(Rational(num, den))) == Null(RATIONAL_NOT_LOWEST)
  {
  }

  lemma {:induction false} HalfAndQuarterAreHeld()
    ensures HeldByDouble(1, 2) && HeldByDouble(1, 4)
  {
    assert Dyadic(1, 0) == 1.0;
    assert Dyadic(1, -1) == 0.5;
    assert Dyadic(1, -2) == 0.25;
  }

  lemma {:induction false} RationalsApart(a: int, b: Positive, c: int, d: Positive)
    requires a as real / b as real != c as real / d as real
    ensures !Equal(Num(Rational(a, b)), Num(Rational(c, d)))
  {
  }

  /** So do two rationals that a binary64 holds: a half and a quarter. */
  lemma {:induction false} HeldRationalsMerge()
    ensures var s := [Num(Rational(1, 2)), Num(Rational(1, 4))];
            PairwiseUnequal(s) && Encode(Set(s)).Ok? && Decode(Encode(Set(s)).value) == Null(SET_REPEATS)
  {
    HalfAndQuarterAreHeld();
    HeldRational(1, 2);
    HeldRational(1, 4);
    RationalsApart(1, 2, 1, 4);
    NullMembersMerge(Num(Rational(1, 2)), Num(Rational(1, 4)), RATIONAL_NOT_LOWEST);
  }
}
