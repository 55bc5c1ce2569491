/** Query filters: negating one by De Morgan, sending it, and what the service
    makes of what is sent. */
module Conditions {
  datatype Comparator = NoComparator | Equals | Greater | Less | GreaterOrEqual | LessOrEqual | In | InstanceOf

  datatype Combiner = NoCombiner | And | Or

  /** A filter as its constructors leave it: a comparison has no combiner, and a
      combination leaves the comparison's fields alone. */
  datatype Condition = Condition(inverse: bool, property: string, comparator: Comparator, values: seq<string>,
                                 combiner: Combiner, operands: seq<Filter>)

  datatype Filter = Nil | To(condition: Condition)

  /** A filter on the wire.  Absent is a nil constraint, Formless one of neither form. */
  datatype Constraint =
    | Absent
    | Formless
    | Primitive(inverse: bool, property: string, comparator: Comparator, values: seq<string>)
    | Composite(combiner: Combiner, constraints: seq<Constraint>)

  // ---------- negation ----------

  function Swapped(c: Combiner): Combiner {
    if c == And then Or else And
  }

  function Negated(f: Filter): Filter {
    match f
    case Nil => Nil
    case To(c) =>
      if c.combiner == NoCombiner then To(c.(inverse := !c.inverse))
      else To(c.(combiner := Swapped(c.combiner), operands := NegatedAll(c.operands)))
  }

  function NegatedAll(operands: seq<Filter>): (r: seq<Filter>)
    ensures |r| == |operands|
  {
    if operands == [] then []
    else NegatedAll(operands[..|operands| - 1]) + [Negated(operands[|operands| - 1])]
  }

  /** Condition.Not */
  method Not(f: Filter) returns (r: Filter)
    ensures r == Negated(f)
    decreases f
  {
    if f.Nil? {
      return Nil;
    }
    var negated := f.condition;
    if negated.combiner == NoCombiner {
      negated := negated.(inverse := !negated.inverse);
      return To(negated);
    }
    negated := negated.(combiner := if negated.combiner == And then Or else And, operands := []);
    var given := f.condition.operands;
    for i := 0 to |given|
      invariant negated == f.condition.(combiner := Swapped(f.condition.combiner), operands := NegatedAll(given[..i]))
    {
      assert given[..i + 1][..i] == given[..i];
      var operand := Not(given[i]);
      negated := negated.(operands := negated.operands + [operand]);
    }
    assert given[..|given|] == given;
    return To(negated);
  }

  // ---------- sending ----------

  function Sent(f: Filter): Constraint {
    match f
    case Nil => Absent
    case To(c) =>
      if c.combiner != NoCombiner then Composite(c.combiner, SentAll(c.operands))
      else Primitive(c.inverse, c.property, c.comparator, c.values)
  }

  function SentAll(operands: seq<Filter>): (r: seq<Constraint>)
    ensures |r| == |operands|
  {
    if operands == [] then []
    else SentAll(operands[..|operands| - 1]) + [Sent(operands[|operands| - 1])]
  }

  /** conditionToProto */
  method ToWire(f: Filter) returns (w: Constraint)
    ensures w == Sent(f)
    decreases f
  {
    if f.Nil? {
      return Absent;
    }
    var c := f.condition;
    if c.combiner != NoCombiner {
      var constraints: seq<Constraint> := [];
      for i := 0 to |c.operands|
        invariant constraints == SentAll(c.operands[..i])
      {
        assert c.operands[..i + 1][..i] == c.operands[..i];
        var operand := ToWire(c.operands[i]);
        constraints := constraints + [operand];
      }
      assert c.operands[..|c.operands|] == c.operands;
      return Composite(c.combiner, constraints);
    }
    return Primitive(c.inverse, c.property, c.comparator, c.values);
  }

  // ---------- the service ----------

  /** What one comparison says of the element at hand, before any inversion. */
  type Verdict = (string, Comparator, seq<string>) -> bool

  /** Whether the element satisfies a constraint, `absent` being what a nil one
      says.  The service has it say yes. */
  predicate Satisfies(w: Constraint, verdict: Verdict, absent: bool) {
    match w
    case Absent => absent
    case Formless => true
    case Primitive(inverse, p, o, v) => verdict(p, o, v) != inverse
    case Composite(combiner, cs) =>
      if combiner == And then forall i | 0 <= i < |cs| :: Satisfies(cs[i], verdict, absent)
      else exists i | 0 <= i < |cs| :: Satisfies(cs[i], verdict, absent)
  }

  /** matches and matchesComposite: a combination stops at the first constraint
      that decides it. */
  method Matches(w: Constraint, verdict: Verdict) returns (r: bool)
    ensures r == Satisfies(w, verdict, true)
    decreases w
  {
    match w {
      case Absent => return true;
      case Formless => return true;
      case Primitive(inverse, p, o, v) =>
        r := verdict(p, o, v);
        if inverse {
          r := !r;
        }
      case Composite(combiner, cs) =>
        var and := combiner == And;
        for i := 0 to |cs|
          invariant forall k | 0 <= k < i :: Satisfies(cs[k], verdict, true) == and
        {
          var nested := Matches(cs[i], verdict);
          if nested != and {
            return !and;
          }
        }
        return and;
    }
  }

  datatype Fault = MalformedConstraint | UnknownProperty | UnorderedProperty | UnparsableValue

  datatype Judgement = Sound | Faulty(fault: Fault)

  /** What the service finds of one comparison, inverted or not. */
  type Review = (string, Comparator, seq<string>) -> Judgement

  /** validateConstraint: the first fault, a combination's own before its parts'. */
  function Validated(w: Constraint, review: Review): Judgement {
    match w
    case Absent => Sound
    case Formless => Faulty(MalformedConstraint)
    case Primitive(_, p, o, v) => review(p, o, v)
    case Composite(combiner, cs) =>
      if |cs| < 2 || combiner == NoCombiner then Faulty(MalformedConstraint) else ValidatedAll(cs, review)
  }

  function ValidatedAll(cs: seq<Constraint>, review: Review): Judgement {
    if cs == [] then Sound
    else
      var before := ValidatedAll(cs[..|cs| - 1], review);
      if before.Faulty? then before else Validated(cs[|cs| - 1], review)
  }

  // ---------- laws ----------

  lemma {:induction false} NegatedAt(operands: seq<Filter>, i: nat)
    requires i < |operands|
    ensures NegatedAll(operands)[i] == Negated(operands[i])
  {
    if i < |operands| - 1 {
      NegatedAt(operands[..|operands| - 1], i);
    }
  }

  lemma {:induction false} SentAt(operands: seq<Filter>, i: nat)
    requires i < |operands|
    ensures SentAll(operands)[i] == Sent(operands[i])
  {
    if i < |operands| - 1 {
      SentAt(operands[..|operands| - 1], i);
    }
  }

  /** Negating twice gives the filter back, nil operands and all. */
  lemma {:induction false} NotTwice(f: Filter)
    ensures Negated(Negated(f)) == f
    decreases f
  {
    if f.To? && f.condition.combiner != NoCombiner {
      NotTwiceAll(f.condition.operands);
    }
  }

  lemma {:induction false} NotTwiceAll(operands: seq<Filter>)
    ensures NegatedAll(NegatedAll(operands)) == operands
    decreases operands
  {
    if operands != [] {
      NotTwiceAll(operands[..|operands| - 1]);
      NotTwice(operands[|operands| - 1]);
      var negated := NegatedAll(operands);
      assert negated[..|operands| - 1] == NegatedAll(operands[..|operands| - 1]);
    }
  }

  /** De Morgan at every depth: the negation says no exactly where the filter says
      yes once its nil operands say the opposite. */
  lemma {:induction false} NegationIsDual(f: Filter, verdict: Verdict, absent: bool)
    requires f.To?
    ensures Satisfies(Sent(Negated(f)), verdict, absent) == !Satisfies(Sent(f), verdict, !absent)
    decreases f
  {
    var c := f.condition;
    if c.combiner != NoCombiner {
      var n, cs, ns := |c.operands|, SentAll(c.operands), SentAll(NegatedAll(c.operands));
      forall i | 0 <= i < n ensures Satisfies(ns[i], verdict, absent) == !Satisfies(cs[i], verdict, !absent) {
        NegatedAt(c.operands, i);
        SentAt(c.operands, i);
        SentAt(NegatedAll(c.operands), i);
        if c.operands[i].To? {
          NegationIsDual(c.operands[i], verdict, absent);
        }
      }
    }
  }

  /** A nil operand that says yes can only make more elements satisfy the filter:
      no negation reaches one. */
  lemma {:induction false} NilOperandsOnlyAdd(f: Filter, verdict: Verdict)
    ensures Satisfies(Sent(f), verdict, false) ==> Satisfies(Sent(f), verdict, true)
    decreases f
  {
    if f.To? && f.condition.combiner != NoCombiner {
      var operands := f.condition.operands;
      forall i | 0 <= i < |operands|
        ensures Satisfies(SentAll(operands)[i], verdict, false) ==> Satisfies(SentAll(operands)[i], verdict, true)
      {
        SentAt(operands, i);
        NilOperandsOnlyAdd(operands[i], verdict);
      }
    }
  }

  /** A filter without a nil operand at any depth. */
  predicate NoNil(f: Filter) {
    f.To? &&
    (f.condition.combiner != NoCombiner ==>
       forall i | 0 <= i < |f.condition.operands| :: NoNil(f.condition.operands[i]))
  }

  lemma {:induction false} NoNilNeedsNoAnswer(f: Filter, verdict: Verdict)
    requires NoNil(f)
    ensures Satisfies(Sent(f), verdict, false) == Satisfies(Sent(f), verdict, true)
    decreases f
  {
    if f.condition.combiner != NoCombiner {
      var operands := f.condition.operands;
      forall i | 0 <= i < |operands|
        ensures Satisfies(SentAll(operands)[i], verdict, false) == Satisfies(SentAll(operands)[i], verdict, true)
      {
        SentAt(operands, i);
        NoNilNeedsNoAnswer(operands[i], verdict);
      }
    }
  }

  /** Without nil operands an element satisfies the filter or its negation, and
      not both. */
  lemma {:induction false} NegationIsOpposite(f: Filter, verdict: Verdict)
    requires NoNil(f)
    ensures Satisfies(Sent(Negated(f)), verdict, true) == !Satisfies(Sent(f), verdict, true)
  {
    NegationIsDual(f, verdict, true);
    NoNilNeedsNoAnswer(f, verdict);
  }

  /** With them no element is missed by both, and it satisfies both exactly when
      it owes the filter's verdict to nil operands. */
  lemma {:induction false} NoElementIsMissed(f: Filter, verdict: Verdict)
    requires f.To?
    ensures Satisfies(Sent(f), verdict, true) || Satisfies(Sent(Negated(f)), verdict, true)
    ensures Satisfies(Sent(f), verdict, true) && Satisfies(Sent(Negated(f)), verdict, true) <==>
            Satisfies(Sent(f), verdict, true) && !Satisfies(Sent(f), verdict, false)
  {
    NegationIsDual(f, verdict, true);
    NilOperandsOnlyAdd(f, verdict);
  }

  function AllOf(operands: seq<Filter>): Filter {
    To(Condition(false, "", NoComparator, [], And, operands))
  }

  /** A nil operand really breaks the negation: an element the rest of the
      conjunction matches satisfies the filter and its negation. */
  lemma {:induction false} ANilOperandSatisfiesBoth(f: Filter, verdict: Verdict)
    requires NoNil(f) && Satisfies(Sent(f), verdict, true)
    ensures Satisfies(Sent(AllOf([f, Nil])), verdict, true)
    ensures Satisfies(Sent(Negated(AllOf([f, Nil]))), verdict, true)
  {
    var both := AllOf([f, Nil]);
    var operands := both.condition.operands;
    forall i | 0 <= i < 2 ensures Satisfies(SentAll(operands)[i], verdict, true) {
      SentAt(operands, i);
    }
    SentAt(operands, 1);
    assert !Satisfies(SentAll(operands)[1], verdict, false);
    NegationIsDual(both, verdict, true);
  }

  // ---------- by the remote transport ----------

  /** What a constraint is after a trip as bytes: a list has no nil elements there,
      and a nil one arrives as a constraint of neither form. */
  function Arrived(w: Constraint): Constraint {
    if w.Composite? then Composite(w.combiner, ArrivedAll(w.constraints)) else w
  }

  function ArrivedAll(cs: seq<Constraint>): (r: seq<Constraint>)
    ensures |r| == |cs|
  {
    if cs == [] then []
    else
      var last := cs[|cs| - 1];
      ArrivedAll(cs[..|cs| - 1]) + [if last.Absent? then Formless else Arrived(last)]
  }

  lemma {:induction false} NoNilArrivesAsSent(f: Filter)
    requires NoNil(f)
    ensures Arrived(Sent(f)) == Sent(f)
    decreases f
  {
    if f.condition.combiner != NoCombiner {
      NoNilOperandsArriveAsSent(f.condition.operands);
    }
  }

  lemma {:induction false} NoNilOperandsArriveAsSent(operands: seq<Filter>)
    requires forall i | 0 <= i < |operands| :: NoNil(operands[i])
    ensures ArrivedAll(SentAll(operands)) == SentAll(operands)
    decreases operands
  {
    if operands != [] {
      var front, last := operands[..|operands| - 1], operands[|operands| - 1];
      NoNilOperandsArriveAsSent(front);
      NoNilArrivesAsSent(last);
      assert SentAll(operands)[..|front|] == SentAll(front);
    }
  }

  /** A nil operand is refused there, wherever it is. */
  lemma {:induction false} RemoteRefusesNilOperands(f: Filter, review: Review)
    requires f.To? && Validated(Arrived(Sent(f)), review).Sound?
    ensures NoNil(f)
    decreases f
  {
    if f.condition.combiner != NoCombiner {
      RemoteRefusesAnyNil(f.condition.operands, review);
    }
  }

  lemma {:induction false} RemoteRefusesAnyNil(operands: seq<Filter>, review: Review)
    requires ValidatedAll(ArrivedAll(SentAll(operands)), review).Sound?
    ensures forall i | 0 <= i < |operands| :: NoNil(operands[i])
    decreases operands
  {
    if operands != [] {
      var front, last := operands[..|operands| - 1], operands[|operands| - 1];
      assert SentAll(operands)[..|front|] == SentAll(front);
      assert ArrivedAll(SentAll(operands))[..|front|] == ArrivedAll(SentAll(front));
      RemoteRefusesAnyNil(front, review);
      if last.To? {
        RemoteRefusesNilOperands(last, review);
      }
    }
  }

  lemma {:induction false} NegationHasNoNil(f: Filter)
    requires NoNil(f)
    ensures NoNil(Negated(f))
    decreases f
  {
    if f.condition.combiner != NoCombiner {
      var operands := f.condition.operands;
      forall i | 0 <= i < |operands| ensures NoNil(NegatedAll(operands)[i]) {
        NegatedAt(operands, i);
        NegationHasNoNil(operands[i]);
      }
    }
  }

  /** So of a filter the remote service accepts, the negation is the opposite on
      every element, nil operands or not. */
  lemma {:induction false} RemoteNegationIsOpposite(f: Filter, verdict: Verdict, review: Review)
    requires f.To? && Validated(Arrived(Sent(f)), review).Sound?
    ensures Validated(Arrived(Sent(Negated(f))), review).Sound?
    ensures Satisfies(Arrived(Sent(Negated(f))), verdict, true) == !Satisfies(Arrived(Sent(f)), verdict, true)
  {
    RemoteRefusesNilOperands(f, review);
    NegationHasNoNil(f);
    NoNilArrivesAsSent(f);
    NoNilArrivesAsSent(Negated(f));
    NegationIsOpposite(f, verdict);
    NegationKeepsFaults(f, review);
  }

  /** The service finds the same fault, or none, in a filter and in its negation:
      operand counts and comparisons are as they were. */
  lemma {:induction false} NegationKeepsFaults(f: Filter, review: Review)
    ensures Validated(Sent(Negated(f)), review) == Validated(Sent(f), review)
    decreases f
  {
    if f.To? && f.condition.combiner != NoCombiner {
      NegationKeepsFaultsAll(f.condition.operands, review);
    }
  }

  lemma {:induction false} NegationKeepsFaultsAll(operands: seq<Filter>, review: Review)
    ensures ValidatedAll(SentAll(NegatedAll(operands)), review) == ValidatedAll(SentAll(operands), review)
    decreases operands
  {
    if operands != [] {
      var front, last := operands[..|operands| - 1], operands[|operands| - 1];
      NegationKeepsFaultsAll(front, review);
      NegationKeepsFaults(last, review);
      assert NegatedAll(operands)[..|front|] == NegatedAll(front);
      assert SentAll(operands)[..|front|] == SentAll(front);
      assert SentAll(NegatedAll(operands))[..|front|] == SentAll(NegatedAll(front));
    }
  }
}
