/** Path patterns of a graph match: label expressions, pattern terms, the checks of their
    constructors, and their serialization. */
module GraphPatterns {
  import opened Wrappers
  import opened Values
  import opened Dynamic
  import PlanExprs

  type PlanExpr = PlanExprs.PlanExpr

  // ----- Label expressions.

  datatype Label =
    | LName(name: string)
    | LWildcard
    | LNegation(operand: Label)
    | LConjunction(operands: seq<Label>)
    | LDisjunction(operands: seq<Label>)

  predicate ValidLabel(l: Label) {
    match l
    case LName(name) => name != ""
    case LWildcard => true
    case LNegation(operand) => ValidLabel(operand)
    case LConjunction(operands) => |operands| >= 2 && forall i :: 0 <= i < |operands| ==> ValidLabel(operands[i])
    case LDisjunction(operands) => |operands| >= 2 && forall i :: 0 <= i < |operands| ==> ValidLabel(operands[i])
  }

  predicate Matches(l: Label, labels: seq<string>) {
    match l
    case LName(name) => name in labels
    case LWildcard => labels != []
    case LNegation(operand) => !Matches(operand, labels)
    case LConjunction(operands) => forall i :: 0 <= i < |operands| ==> Matches(operands[i], labels)
    case LDisjunction(operands) => exists i :: 0 <= i < |operands| && Matches(operands[i], labels)
  }

  /** The names forEachName visits, in order and with repetitions. */
  function Names(l: Label): seq<string>
    decreases l, 0
  {
    match l
    case LName(name) => [name]
    case LWildcard => []
    case LNegation(operand) => Names(operand)
    case LConjunction(operands) => NamesFrom(operands, 0)
    case LDisjunction(operands) => NamesFrom(operands, 0)
  }

  function NamesFrom(ls: seq<Label>, i: nat): (r: seq<string>)
    requires i <= |ls|
    ensures forall j :: i <= j < |ls| ==> forall n :: n in Names(ls[j]) ==> n in r
    decreases ls, 0, |ls| - i
  {
    if i == |ls| then [] else Names(ls[i]) + NamesFrom(ls, i + 1)
  }

  /** Whether an element matches depends on nothing but which of the visited names are among its
      labels, and on whether it has any label at all. */
  lemma {:induction false} MatchingReadsVisitedNames(l: Label, a: seq<string>, b: seq<string>)
    requires a == [] <==> b == []
    requires forall n :: n in Names(l) ==> (n in a <==> n in b)
    ensures Matches(l, a) <==> Matches(l, b)
  {
    match l
    case LName(name) => assert name in Names(l);
    case LWildcard =>
    case LNegation(operand) => MatchingReadsVisitedNames(operand, a, b);
    case _ =>
      forall i | 0 <= i < |l.operands| ensures Matches(l.operands[i], a) <==> Matches(l.operands[i], b) {
        MatchingReadsVisitedNames(l.operands[i], a, b);
      }
  }

  /** A wildcard rejects an element without labels. */
  lemma {:induction false} WildcardNeedsLabel(labels: seq<string>)
    ensures Matches(LWildcard, labels) <==> exists n :: n in labels && Matches(LName(n), labels)
  {
    if labels != [] { assert labels[0] in labels; }
  }

  /** A negated conjunction is the disjunction of the negations. */
  lemma {:induction false} DeMorgan(operands: seq<Label>, labels: seq<string>)
    ensures Matches(LNegation(LConjunction(operands)), labels)
       <==> Matches(LDisjunction(seq(|operands|, i requires 0 <= i < |operands| => LNegation(operands[i]))), labels)
  {
    var negated := seq(|operands|, i requires 0 <= i < |operands| => LNegation(operands[i]));
    assert forall i :: 0 <= i < |operands| ==> (Matches(negated[i], labels) <==> !Matches(operands[i], labels));
  }

  /** The label with each wildcard spelled out as the disjunction of the names. */
  function SpellOut(l: Label, names: seq<string>): Label {
    match l
    case LName(_) => l
    case LWildcard => LDisjunction(seq(|names|, i requires 0 <= i < |names| => LName(names[i])))
    case LNegation(operand) => LNegation(SpellOut(operand, names))
    case LConjunction(operands) =>
      LConjunction(seq(|operands|, i requires 0 <= i < |operands| => SpellOut(operands[i], names)))
    case LDisjunction(operands) =>
      LDisjunction(seq(|operands|, i requires 0 <= i < |operands| => SpellOut(operands[i], names)))
  }

  predicate SomeNamed(labels: seq<string>, names: seq<string>) {
    exists i :: 0 <= i < |names| && names[i] in labels
  }

  /** Wildcards can be spelled out as names, wherever they occur, exactly for the elements that
      have no label or one of the names. */
  lemma {:induction false} WildcardAsNames(names: seq<string>, labels: seq<string>)
    ensures (forall l :: Matches(SpellOut(l, names), labels) <==> Matches(l, labels))
       <==> (labels == [] || SomeNamed(labels, names))
  {
    SpelledWildcard(names, labels);
    if labels == [] || SomeNamed(labels, names) {
      forall l ensures Matches(SpellOut(l, names), labels) <==> Matches(l, labels) { SpelledLabel(l, names, labels); }
    } else {
      assert Matches(LWildcard, labels) && !Matches(SpellOut(LWildcard, names), labels);
    }
  }

  lemma {:induction false} SpelledWildcard(names: seq<string>, labels: seq<string>)
    ensures Matches(SpellOut(LWildcard, names), labels) <==> SomeNamed(labels, names)
  {
    var spelled := SpellOut(LWildcard, names).operands;
    forall i | 0 <= i < |names| ensures Matches(spelled[i], labels) <==> names[i] in labels {
      assert spelled[i] == LName(names[i]);
    }
  }

  lemma {:induction false} SpelledLabel(l: Label, names: seq<string>, labels: seq<string>)
    requires labels == [] || SomeNamed(labels, names)
    ensures Matches(SpellOut(l, names), labels) <==> Matches(l, labels)
  {
    match l
    case LName(_) =>
    case LWildcard => SpelledWildcard(names, labels);
    case LNegation(operand) => SpelledLabel(operand, names, labels);
    case _ =>
      var spelled := SpellOut(l, names).operands;
      forall i | 0 <= i < |l.operands| ensures Matches(spelled[i], labels) <==> Matches(l.operands[i], labels) {
        SpelledLabel(l.operands[i], names, labels);
      }
  }

  /** The constructors accept the spelled-out label when there are two names or more. */
  lemma {:induction false} SpelledLabelIsValid(l: Label, names: seq<string>)
    requires ValidLabel(l) && |names| >= 2 && forall i :: 0 <= i < |names| ==> names[i] != ""
    ensures ValidLabel(SpellOut(l, names))
  {
    match l
    case LName(_) =>
    case LWildcard =>
    case LNegation(operand) => SpelledLabelIsValid(operand, names);
    case _ =>
      forall i | 0 <= i < |l.operands| ensures ValidLabel(SpellOut(l.operands[i], names)) {
        SpelledLabelIsValid(l.operands[i], names);
      }
  }

  // ----- Pattern terms.

  datatype Mode = Walk | Trail | Acyclic | Simple

  datatype Direction = Right | Left | AnyDirection

  datatype Repetition = Repetition(min: int, max: Option<int>)

  datatype Term =
    | Vertex(name: string, labelExpr: Option<Label>, condition: Option<PlanExpr>)
    | Edge(
        name: string, labelExpr: Option<Label>, condition: Option<PlanExpr>, direction: Direction,
        repetition: Option<Repetition>)
    | Subpath(
        name: string, mode: Mode, terms: seq<Term>, condition: Option<PlanExpr>, repetition: Option<Repetition>,
        optional: bool)

  predicate Repeated(t: Term) {
    !t.Vertex? && t.repetition.Some?
  }

  predicate HasRepeatedTerm(terms: seq<Term>) {
    exists i :: 0 <= i < |terms| && (Repeated(terms[i]) || (terms[i].Subpath? && HasRepeatedTerm(terms[i].terms)))
  }

  /** The names of the vertex and edge patterns among the terms, at every depth. */
  function ElementNames(terms: seq<Term>): (names: set<string>)
    decreases terms, |terms|
  {
    if terms == [] then {}
    else
      var n := |terms| - 1;
      assert terms[n] in terms;
      ElementNames(terms[..n]) + TermNames(terms[n])
  }

  function TermNames(t: Term): (names: set<string>)
    decreases t, 0
  {
    match t
    case Subpath(_, _, terms, _, _, _) => ElementNames(terms)
    case _ => if t.name == "" then {} else {t.name}
  }

  method CollectElementNames(terms: seq<Term>, names: set<string>) returns (r: set<string>)
    ensures r == names + ElementNames(terms)
    decreases terms
  {
    r := names;
    for i := 0 to |terms|
      invariant r == names + ElementNames(terms[..i])
    {
      assert terms[..i + 1][..i] == terms[..i];
      var term := terms[i];
      if term.Subpath? {
        r := CollectElementNames(term.terms, r);
      } else if term.name != "" {
        r := r + {term.name};
      }
    }
    assert terms[..|terms|] == terms;
  }

  /** Every input the predicate reads is a ROW with one of the names. */
  predicate ReadsOnly(e: PlanExpr, names: set<string>) {
    match e
    case InputReference(ty, name) => name in names && ty.Row?
    case Call(_, _, inputs) => forall i :: 0 <= i < |inputs| ==> ReadsOnly(inputs[i], names)
    case Special(_, _, inputs) => forall i :: 0 <= i < |inputs| ==> ReadsOnly(inputs[i], names)
    case Aggregate(_, _, inputs, _, _, _) => forall i :: 0 <= i < |inputs| ==> ReadsOnly(inputs[i], names)
    case SpecialAggregate(_, inputs, _) => forall i :: 0 <= i < |inputs| ==> ReadsOnly(inputs[i], names)
    case Window(_, _, inputs, _, _, _, _) => forall i :: 0 <= i < |inputs| ==> ReadsOnly(inputs[i], names)
    case _ => true
  }

  predicate PredicateFits(p: Option<PlanExpr>, names: set<string>) {
    p.Some? ==> PlanExprs.TypeOf(p.value) == Some(Boolean) && ReadsOnly(p.value, names)
  }

  predicate RepetitionFits(r: Option<Repetition>) {
    r.Some? ==> 0 <= r.value.min && (r.value.max.Some? ==> r.value.min <= r.value.max.value)
  }

  /** The checks of the term's own constructor. */
  predicate Accepts(t: Term) {
    match t
    case Vertex(name, _, condition) => (condition.Some? ==> name != "") && PredicateFits(condition, {name})
    case Edge(name, _, condition, _, repetition) =>
      (condition.Some? ==> name != "") && PredicateFits(condition, {name}) && RepetitionFits(repetition)
    case Subpath(_, _, terms, condition, repetition, optional) =>
      && terms != [] && !(repetition.Some? && optional) && RepetitionFits(repetition)
      && (repetition.Some? ==> !HasRepeatedTerm(terms))
      && PredicateFits(condition, ElementNames(terms))
  }

  /** Every constructor on the way down accepts its arguments. */
  predicate ValidTerm(t: Term) {
    && Accepts(t)
    && (t.Subpath? ==> forall i :: 0 <= i < |t.terms| ==> ValidTerm(t.terms[i]))
    && (!t.Subpath? && t.labelExpr.Some? ==> ValidLabel(t.labelExpr.value))
  }

  predicate ValidTerms(terms: seq<Term>) {
    forall i :: 0 <= i < |terms| ==> ValidTerm(terms[i])
  }

  /** How deep repetitions nest. */
  function RepetitionDepth(t: Term): nat
    decreases t, 1
  {
    (if Repeated(t) then 1 else 0) + if t.Subpath? then Deepest(t.terms, 0) else 0
  }

  function Deepest(terms: seq<Term>, i: nat): (depth: nat)
    requires i <= |terms|
    ensures forall j :: i <= j < |terms| ==> RepetitionDepth(terms[j]) <= depth
    ensures depth > 0 ==> exists j :: i <= j < |terms| && RepetitionDepth(terms[j]) == depth
    decreases terms, 0, |terms| - i
  {
    if i == |terms| then 0
    else
      var d, rest := RepetitionDepth(terms[i]), Deepest(terms, i + 1);
      if d >= rest then d else rest
  }

  /** What the constructors are for: in a valid term no repetition is inside another. */
  lemma {:induction false} RepetitionsDoNotNest(t: Term)
    requires ValidTerm(t)
    ensures RepetitionDepth(t) <= 1
    ensures RepetitionDepth(t) == 1 <==> Repeated(t) || (t.Subpath? && HasRepeatedTerm(t.terms))
  {
    if t.Subpath? {
      var depth := Deepest(t.terms, 0);
      forall i | 0 <= i < |t.terms|
        ensures RepetitionDepth(t.terms[i]) <= 1
        ensures RepetitionDepth(t.terms[i]) == 1 <==>
                Repeated(t.terms[i]) || (t.terms[i].Subpath? && HasRepeatedTerm(t.terms[i].terms))
      {
        RepetitionsDoNotNest(t.terms[i]);
      }
      if depth > 0 {
        var j :| 0 <= j < |t.terms| && RepetitionDepth(t.terms[j]) == depth;
        assert HasRepeatedTerm(t.terms);
      }
      if HasRepeatedTerm(t.terms) {
        var j :| 0 <= j < |t.terms| && (Repeated(t.terms[j]) || (t.terms[j].Subpath? && HasRepeatedTerm(t.terms[j].terms)));
        assert RepetitionDepth(t.terms[j]) == 1;
      }
    }
  }

  datatype SelectorKind = All | Any | AnyShortest | AllShortest | Shortest | ShortestGroups

  datatype Selector = Selector(kind: SelectorKind, count: Option<int>)

  datatype Path = Path(name: string, selector: Selector, mode: Mode, terms: seq<Term>)
}
