/** What an edit list asks of a service, and the action-body items it sends. */
module Authoring {
  datatype Capability =
    | Authoring | ConnectionAuthoring | SatisfyAuthoring | RequirementConstraintAuthoring | MemberModifiers
    | TransitionAuthoring | VerificationObjectiveAuthoring | MetadataAuthoring | MetadataPrefixAuthoring
    | SequenceAuthoring | ImplicitParameters | ActionBodyStatementAuthoring | ConstraintBodyAuthoring
    | StateActionAuthoring | ImportAuthoring | DocumentationAuthoring | CommentAuthoring

  const ORDER := [
    Authoring, ConnectionAuthoring, SatisfyAuthoring, RequirementConstraintAuthoring, MemberModifiers,
    TransitionAuthoring, VerificationObjectiveAuthoring, MetadataAuthoring, MetadataPrefixAuthoring,
    SequenceAuthoring, ImplicitParameters, ActionBodyStatementAuthoring, ConstraintBodyAuthoring,
    StateActionAuthoring, ImportAuthoring, DocumentationAuthoring, CommentAuthoring
  ]

  const MAX_DEPTH := 128

  /** The text fields of an action-body item. */
  datatype ItemText = ItemText(owner: string, keyword: string, ref: string, memberKind: string, memberName: string,
                               typ: string, after: string, condition: string, value: string, target: string,
                               via: string, until: string, parameter: string, multiplicity: string)

  datatype Item = Item(text: ItemText, body: seq<Item>, otherwise: seq<Item>)

  /** The fields of a member that decide what it needs. */
  datatype Member = Member(kind: string, name: string, isAbstract: bool, redefines: seq<string>, isDefault: bool,
                           direction: string, prefixes: seq<string>, bodyExpression: string, doc: string)

  datatype Edit =
    | AddMember(member: Member)
    | AddConnection | AddSatisfy | AddRequirementConstraint | AddTransition | AddVerify | AddMetadata
    | AddMetadataPrefix
    | AddSequence(item: Item)
    | AddImport | AddDocumentation | AddComment | AddNote
    | Delete | Move
    | SetValue | Rename

  // ---------- capabilities ----------

  const STATEMENT_KINDS := {"accept", "send", "assign", "if", "while", "loop", "for", "terminate"}

  /** What the item itself shows: a keyword, a field or a nested item only an
      action-body statement has. */
  predicate OwnStatement(a: Item) {
    var t := a.text;
    t.keyword == "if" || t.keyword == "else" || (t.keyword == "" && t.memberKind != "") || t.condition != "" ||
    t.value != "" || t.target != "" || t.via != "" || t.until != "" || t.parameter != "" || t.multiplicity != "" ||
    |a.body| > 0 || |a.otherwise| > 0
  }

  /** needsActionBodyStatementAuthoringAt; which of its tests comes first is not
      told apart. */
  predicate NeedsStatements(a: Item, depth: nat)
    decreases a
  {
    depth <= MAX_DEPTH &&
    ((exists i | 0 <= i < |a.body| :: NeedsStatements(a.body[i], depth + 1)) ||
     (exists i | 0 <= i < |a.otherwise| :: NeedsStatements(a.otherwise[i], depth + 1)) ||
     OwnStatement(a) || a.text.memberKind in STATEMENT_KINDS)
  }

  /** The search through nested items never decides: an item that has any already
      needs the capability for having them. */
  lemma {:induction false} NestedItemsDecideNothing(a: Item, depth: nat)
    ensures NeedsStatements(a, depth) <==>
            depth <= MAX_DEPTH && (OwnStatement(a) || a.text.memberKind in STATEMENT_KINDS)
  {
  }

  const MODIFIED_KINDS := {"ref", "return"}
  const CONSTRAINT_KINDS := {"assert", "assert not", "assert constraint", "assert not constraint"}
  const STATE_ACTION_KINDS := {"exhibit state", "exhibit", "entry action", "do action", "exit action"}

  function If(condition: bool, c: Capability): set<Capability> {
    if condition then {c} else {}
  }

  predicate ModifiesMember(m: Member) {
    m.isAbstract || m.redefines != [] || m.isDefault || m.direction != "" || m.kind in MODIFIED_KINDS
  }

  predicate NamelessObjective(m: Member) {
    m.kind == "objective" && m.name == ""
  }

  predicate HasConstraintBody(m: Member) {
    m.bodyExpression != "" || m.kind in CONSTRAINT_KINDS
  }

  predicate ActsOnState(m: Member) {
    m.kind in STATE_ACTION_KINDS
  }

  function MarksWhen(implicit: bool, modified: bool, objective: bool, prefixed: bool, constrained: bool,
                     stateful: bool, documented: bool): set<Capability> {
    If(implicit, ImplicitParameters) + If(modified, MemberModifiers) + If(objective, VerificationObjectiveAuthoring) +
    If(prefixed, MetadataAuthoring) + If(constrained, ConstraintBodyAuthoring) + If(stateful, StateActionAuthoring) +
    If(documented, DocumentationAuthoring)
  }

  function MemberMarks(m: Member): set<Capability> {
    MarksWhen(m.kind == "", ModifiesMember(m), NamelessObjective(m), m.prefixes != [], HasConstraintBody(m),
              ActsOnState(m), m.doc != "")
  }

  /** What one edit marks; an edit of none of these kinds marks nothing. */
  function Marks(edit: Edit): set<Capability> {
    match edit
    case AddMember(m) => MemberMarks(m) + {Authoring}
    case AddConnection => {ConnectionAuthoring, Authoring}
    case AddSatisfy => {SatisfyAuthoring, Authoring}
    case AddRequirementConstraint => {RequirementConstraintAuthoring, Authoring}
    case AddTransition => {TransitionAuthoring, Authoring}
    case AddVerify => {VerificationObjectiveAuthoring, Authoring}
    case AddMetadata => {MetadataAuthoring, Authoring}
    case AddMetadataPrefix => {MetadataPrefixAuthoring, Authoring}
    case AddSequence(a) => If(NeedsStatements(a, 0), ActionBodyStatementAuthoring) + {SequenceAuthoring, Authoring}
    case AddImport => {ImportAuthoring, Authoring}
    case AddDocumentation => {DocumentationAuthoring, Authoring}
    case AddComment => {CommentAuthoring, Authoring}
    case AddNote => {CommentAuthoring, Authoring}
    case Delete => {Authoring}
    case Move => {Authoring}
    case SetValue => {}
    case Rename => {}
  }

  function MarksOfAll(edits: seq<Edit>): set<Capability> {
    set e, c | e in edits && c in Marks(e) :: c
  }

  /** The marked capabilities among the first n of the fixed order. */
  function Listed(required: set<Capability>, n: nat): seq<Capability>
    requires n <= |ORDER|
  {
    if n == 0 then []
    else Listed(required, n - 1) + if ORDER[n - 1] in required then [ORDER[n - 1]] else []
  }

  /** addMemberCapabilities, marking into a set. */
  method MarkMember(m: Member, marked: set<Capability>) returns (required: set<Capability>)
    ensures required == marked + MemberMarks(m)
  {
    required := marked;
    if m.kind == "" {
      required := required + {ImplicitParameters};
    }
    if m.isAbstract || |m.redefines| > 0 || m.isDefault || m.direction != "" || m.kind == "ref" || m.kind == "return" {
      required := required + {MemberModifiers};
    }
    if m.kind == "objective" && m.name == "" {
      required := required + {VerificationObjectiveAuthoring};
    }
    if |m.prefixes| > 0 {
      required := required + {MetadataAuthoring};
    }
    if m.bodyExpression != "" || m.kind in CONSTRAINT_KINDS {
      required := required + {ConstraintBodyAuthoring};
    }
    if m.kind in STATE_ACTION_KINDS {
      required := required + {StateActionAuthoring};
    }
    if m.doc != "" {
      required := required + {DocumentationAuthoring};
    }
  }

  /** The loop's switch: setting a value and renaming mark nothing, not even the
      capability every other edit does. */
  method MarkEdit(edit: Edit, marked: set<Capability>) returns (required: set<Capability>)
    ensures required == marked + Marks(edit)
  {
    required := marked;
    match edit {
      case AddMember(m) => required := MarkMember(m, required);
      case AddConnection => required := required + {ConnectionAuthoring};
      case AddSatisfy => required := required + {SatisfyAuthoring};
      case AddRequirementConstraint => required := required + {RequirementConstraintAuthoring};
      case AddTransition => required := required + {TransitionAuthoring};
      case AddVerify => required := required + {VerificationObjectiveAuthoring};
      case AddMetadata => required := required + {MetadataAuthoring};
      case AddMetadataPrefix => required := required + {MetadataPrefixAuthoring};
      case AddSequence(a) =>
        required := required + {SequenceAuthoring};
        if NeedsStatements(a, 0) {
          required := required + {ActionBodyStatementAuthoring};
        }
      case AddImport => required := required + {ImportAuthoring};
      case AddDocumentation => required := required + {DocumentationAuthoring};
      case AddComment => required := required + {CommentAuthoring};
      case AddNote => required := required + {CommentAuthoring};
      case Delete =>
      case Move =>
      case SetValue => return;
      case Rename => return;
    }
    required := required + {Authoring};
  }

  method MarkAll(edits: seq<Edit>) returns (required: set<Capability>)
    ensures required == MarksOfAll(edits)
  {
    required := {};
    for i := 0 to |edits|
      invariant required == MarksOfAll(edits[..i])
    {
      OneMoreEdit(edits[..i], edits[i]);
      assert edits[..i + 1] == edits[..i] + [edits[i]];
      required := MarkEdit(edits[i], required);
    }
    assert edits[..|edits|] == edits;
  }

  /** requiredCapabilities: mark what each edit needs, then list what is marked. */
  method RequiredCapabilities(edits: seq<Edit>) returns (names: seq<Capability>)
    ensures names == Listed(MarksOfAll(edits), |ORDER|)
  {
    var required := MarkAll(edits);
    names := [];
    for n := 0 to |ORDER|
      invariant names == Listed(required, n)
    {
      if ORDER[n] in required {
        names := names + [ORDER[n]];
      }
    }
  }

  lemma {:induction false} OneMoreEdit(edits: seq<Edit>, edit: Edit)
    ensures MarksOfAll(edits + [edit]) == MarksOfAll(edits) + Marks(edit)
  {
    assert edit in edits + [edit];
    forall c | c in MarksOfAll(edits) ensures c in MarksOfAll(edits + [edit]) {
      var e :| e in edits && c in Marks(e);
      assert e in edits + [edit];
    }
  }

  lemma {:induction false} OrderIsDistinct()
    ensures forall i, j | 0 <= i < j < |ORDER| :: ORDER[i] != ORDER[j]
  {
  }

  lemma {:induction false} OrderHasAll(c: Capability)
    ensures c in ORDER
  {
    assert ORDER[0] == Authoring && ORDER[1] == ConnectionAuthoring && ORDER[2] == SatisfyAuthoring;
    assert ORDER[3] == RequirementConstraintAuthoring && ORDER[4] == MemberModifiers;
    assert ORDER[5] == TransitionAuthoring && ORDER[6] == VerificationObjectiveAuthoring;
    assert ORDER[7] == MetadataAuthoring && ORDER[8] == MetadataPrefixAuthoring && ORDER[9] == SequenceAuthoring;
    assert ORDER[10] == ImplicitParameters && ORDER[11] == ActionBodyStatementAuthoring;
    assert ORDER[12] == ConstraintBodyAuthoring && ORDER[13] == StateActionAuthoring;
    assert ORDER[14] == ImportAuthoring && ORDER[15] == DocumentationAuthoring && ORDER[16] == CommentAuthoring;
  }

  lemma {:induction false} ListedIs(required: set<Capability>, n: nat)
    requires n <= |ORDER|
    ensures forall c :: c in Listed(required, n) <==> c in required && c in ORDER[..n]
    ensures forall i, j | 0 <= i < j < |Listed(required, n)| :: Listed(required, n)[i] != Listed(required, n)[j]
  {
    if n > 0 {
      ListedIs(required, n - 1);
      OrderIsDistinct();
      assert ORDER[..n] == ORDER[..n - 1] + [ORDER[n - 1]];
      assert ORDER[n - 1] !in ORDER[..n - 1];
    }
  }

  /** Every capability any edit marks is listed, once, and no other is. */
  lemma {:induction false} ListsExactlyTheMarked(edits: seq<Edit>)
    ensures var names := Listed(MarksOfAll(edits), |ORDER|);
            (forall c :: c in names <==> exists e | e in edits :: c in Marks(e)) &&
            forall i, j | 0 <= i < j < |names| :: names[i] != names[j]
  {
    var names := Listed(MarksOfAll(edits), |ORDER|);
    ListedIs(MarksOfAll(edits), |ORDER|);
    assert ORDER[..|ORDER|] == ORDER;
    forall c: Capability ensures c in ORDER {
      OrderHasAll(c);
    }
  }

  /** Joining edit lists joins what they need. */
  lemma {:induction false} MarksOfConcatenation(a: seq<Edit>, b: seq<Edit>)
    ensures MarksOfAll(a + b) == MarksOfAll(a) + MarksOfAll(b)
  {
    forall c ensures c in MarksOfAll(a + b) <==> c in MarksOfAll(a) + MarksOfAll(b) {
      if c in MarksOfAll(a) {
        var e :| e in a && c in Marks(e);
        assert e in a + b;
      }
      if c in MarksOfAll(b) {
        var e :| e in b && c in Marks(e);
        assert e in a + b;
      }
    }
  }

  /** Permuting the edits changes nothing, nor does repeating one. */
  lemma {:induction false} OrderOfEditsIsImmaterial(a: seq<Edit>, b: seq<Edit>)
    requires forall e :: e in a <==> e in b
    ensures Listed(MarksOfAll(a), |ORDER|) == Listed(MarksOfAll(b), |ORDER|)
  {
    assert MarksOfAll(a) == MarksOfAll(b);
  }

  /** Any edit but setting a value or renaming needs the service to author at all,
      and whatever else is needed comes after that. */
  lemma {:induction false} AuthoringComesFirst(edits: seq<Edit>)
    ensures var names := Listed(MarksOfAll(edits), |ORDER|);
            && (names == [] <==> forall e | e in edits :: e == SetValue || e == Rename)
            && (names != [] ==> names[0] == Authoring)
  {
    var required := MarksOfAll(edits);
    var names := Listed(required, |ORDER|);
    ListedFirst(required, |ORDER|);
    if names != [] {
      ListedIs(required, |ORDER|);
      assert names[0] in names;
      MarkedNeedsAuthoring(edits, names[0]);
    }
    if e :| e in edits && e != SetValue && e != Rename {
      assert Authoring in Marks(e);
      assert Authoring in required;
    }
  }

  lemma {:induction false} MarkedNeedsAuthoring(edits: seq<Edit>, c: Capability)
    requires c in MarksOfAll(edits)
    ensures Authoring in MarksOfAll(edits)
    ensures exists e | e in edits :: e != SetValue && e != Rename
  {
    var e :| e in edits && c in Marks(e);
    assert e != SetValue && e != Rename;
    assert Authoring in Marks(e);
  }

  lemma {:induction false} ListedFirst(required: set<Capability>, n: nat)
    requires n <= |ORDER|
    ensures n > 0 && Authoring in required ==> Listed(required, n) != [] && Listed(required, n)[0] == Authoring
  {
    if n > 0 {
      assert ORDER[0] == Authoring;
      assert Listed(required, 0) == [];
      ListedFirst(required, n - 1);
    }
  }

  /** The table of what brings each capability in.  A member brings what edits of
      other kinds bring alone when it is documented, prefixed or a nameless
      objective; an item is asked only for itself, nothing nested in it. */
  predicate BringsIn(e: Edit, c: Capability) {
    match c
    case Authoring => e != SetValue && e != Rename
    case ConnectionAuthoring => e.AddConnection?
    case SatisfyAuthoring => e.AddSatisfy?
    case RequirementConstraintAuthoring => e.AddRequirementConstraint?
    case MemberModifiers => e.AddMember? && ModifiesMember(e.member)
    case TransitionAuthoring => e.AddTransition?
    case VerificationObjectiveAuthoring =>
      e.AddVerify? || (e.AddMember? && NamelessObjective(e.member))
    case MetadataAuthoring => e.AddMetadata? || (e.AddMember? && e.member.prefixes != [])
    case MetadataPrefixAuthoring => e.AddMetadataPrefix?
    case SequenceAuthoring => e.AddSequence?
    case ImplicitParameters => e.AddMember? && e.member.kind == ""
    case ActionBodyStatementAuthoring =>
      e.AddSequence? && (OwnStatement(e.item) || e.item.text.memberKind in STATEMENT_KINDS)
    case ConstraintBodyAuthoring => e.AddMember? && HasConstraintBody(e.member)
    case StateActionAuthoring => e.AddMember? && ActsOnState(e.member)
    case ImportAuthoring => e.AddImport?
    case DocumentationAuthoring => e.AddDocumentation? || (e.AddMember? && e.member.doc != "")
    case CommentAuthoring => e.AddComment? || e.AddNote?
  }

  lemma {:induction false} MarkedWhen(implicit: bool, modified: bool, objective: bool, prefixed: bool,
                                      constrained: bool, stateful: bool, documented: bool, c: Capability)
    ensures c in MarksWhen(implicit, modified, objective, prefixed, constrained, stateful, documented) <==>
            match c
            case ImplicitParameters => implicit
            case MemberModifiers => modified
            case VerificationObjectiveAuthoring => objective
            case MetadataAuthoring => prefixed
            case ConstraintBodyAuthoring => constrained
            case StateActionAuthoring => stateful
            case DocumentationAuthoring => documented
            case _ => false
  {
  }

  lemma {:induction false} MemberBringsIn(m: Member, c: Capability)
    ensures c in Marks(AddMember(m)) <==> BringsIn(AddMember(m), c)
  {
    MarkedWhen(m.kind == "", ModifiesMember(m), NamelessObjective(m), m.prefixes != [], HasConstraintBody(m),
               ActsOnState(m), m.doc != "", c);
  }

  lemma {:induction false} EditBringsIn(e: Edit, c: Capability)
    ensures c in Marks(e) <==> BringsIn(e, c)
  {
    if e.AddMember? {
      MemberBringsIn(e.member, c);
    } else if e.AddSequence? {
      NestedItemsDecideNothing(e.item, 0);
    }
  }

  /** A capability is listed exactly when some edit brings it in by the table. */
  lemma {:induction false} ListedComesFromEdits(edits: seq<Edit>, c: Capability)
    ensures c in Listed(MarksOfAll(edits), |ORDER|) <==> exists e | e in edits :: BringsIn(e, c)
  {
    ListsExactlyTheMarked(edits);
    forall e | e in edits ensures c in Marks(e) <==> BringsIn(e, c) {
      EditBringsIn(e, c);
    }
  }

  // ---------- nested items on the wire ----------

  /** An item as sent; a message has the item's own fields and lists. */
  datatype Sent = Sent(text: ItemText, body: seq<Sent>, otherwise: seq<Sent>)

  datatype Outcome = Encoded(sent: Sent) | TooDeep

  datatype Outcomes = EncodedAll(sent: seq<Sent>) | SomeTooDeep

  function Encode(a: Item, depth: nat): Outcome
    decreases a, 0
  {
    if depth > MAX_DEPTH then TooDeep
    else
      match EncodeAll(a.body, depth + 1)
      case SomeTooDeep => TooDeep
      case EncodedAll(body) =>
        match EncodeAll(a.otherwise, depth + 1)
        case SomeTooDeep => TooDeep
        case EncodedAll(otherwise) => Encoded(Sent(a.text, body, otherwise))
  }

  function EncodeAll(items: seq<Item>, depth: nat): Outcomes
    decreases items, 1
  {
    if items == [] then EncodedAll([])
    else
      var before := EncodeAll(items[..|items| - 1], depth);
      if before.SomeTooDeep? then SomeTooDeep
      else
        var last := Encode(items[|items| - 1], depth);
        if last.TooDeep? then SomeTooDeep else EncodedAll(before.sent + [last.sent])
  }

  /** addSequenceToProto */
  method SendSequence(a: Item, depth: nat) returns (r: Outcome)
    ensures r == Encode(a, depth)
    decreases a, 0
  {
    if depth > MAX_DEPTH {
      return TooDeep;
    }
    var body := SendAll(a.body, depth + 1);
    if body.SomeTooDeep? {
      return TooDeep;
    }
    var otherwise := SendAll(a.otherwise, depth + 1);
    if otherwise.SomeTooDeep? {
      return TooDeep;
    }
    return Encoded(Sent(a.text, body.sent, otherwise.sent));
  }

  lemma {:induction false} StuckIsStuck(items: seq<Item>, n: nat, depth: nat)
    requires n <= |items| && EncodeAll(items[..n], depth).SomeTooDeep?
    ensures EncodeAll(items, depth).SomeTooDeep?
  {
    if n == |items| {
      assert items[..n] == items;
    } else {
      assert items[..|items| - 1][..n] == items[..n];
      StuckIsStuck(items[..|items| - 1], n, depth);
    }
  }

  /** Its loop over one of the two lists. */
  method SendAll(items: seq<Item>, depth: nat) returns (r: Outcomes)
    ensures r == EncodeAll(items, depth)
    decreases items, 1
  {
    var sent: seq<Sent> := [];
    for i := 0 to |items|
      invariant EncodeAll(items[..i], depth) == EncodedAll(sent)
    {
      assert items[..i + 1][..i] == items[..i];
      var child := SendSequence(items[i], depth);
      if child.TooDeep? {
        StuckIsStuck(items, i + 1, depth);
        return SomeTooDeep;
      }
      sent := sent + [child.sent];
    }
    assert items[..|items|] == items;
    return EncodedAll(sent);
  }

  /** No item stands more than `room` below this one. */
  predicate Fits(a: Item, room: int)
    decreases a
  {
    room >= 0 && (forall i | 0 <= i < |a.body| :: Fits(a.body[i], room - 1)) &&
    forall i | 0 <= i < |a.otherwise| :: Fits(a.otherwise[i], room - 1)
  }

  /** The message has the item's shape and its text, node for node. */
  predicate Mirrors(a: Item, w: Sent)
    decreases a
  {
    w.text == a.text && |w.body| == |a.body| && |w.otherwise| == |a.otherwise| &&
    (forall i | 0 <= i < |a.body| :: Mirrors(a.body[i], w.body[i])) &&
    forall i | 0 <= i < |a.otherwise| :: Mirrors(a.otherwise[i], w.otherwise[i])
  }

  predicate MirrorsAll(items: seq<Item>, sent: seq<Sent>) {
    |sent| == |items| && forall i | 0 <= i < |items| :: Mirrors(items[i], sent[i])
  }

  /** An item is sent exactly when nothing in it stands deeper than the limit, and
      what is sent mirrors it. */
  lemma {:induction false} SentWhenShallow(a: Item, depth: nat)
    ensures Encode(a, depth).Encoded? <==> Fits(a, MAX_DEPTH - depth)
    ensures Encode(a, depth).Encoded? ==> Mirrors(a, Encode(a, depth).sent)
    decreases a, 0
  {
    if depth <= MAX_DEPTH {
      AllSentWhenShallow(a.body, depth + 1);
      AllSentWhenShallow(a.otherwise, depth + 1);
    }
  }

  lemma {:induction false} AllSentWhenShallow(items: seq<Item>, depth: nat)
    ensures EncodeAll(items, depth).EncodedAll? <==> forall i | 0 <= i < |items| :: Fits(items[i], MAX_DEPTH - depth)
    ensures EncodeAll(items, depth).EncodedAll? ==> MirrorsAll(items, EncodeAll(items, depth).sent)
    decreases items, 1
  {
    if items != [] {
      var before := items[..|items| - 1];
      AllSentWhenShallow(before, depth);
      SentWhenShallow(items[|items| - 1], depth);
      assert items == before + [items[|items| - 1]];
    }
  }
}
