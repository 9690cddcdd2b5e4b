/** Serialization of label expressions, pattern terms and path patterns. */
module GraphSerde {
  import opened Wrappers
  import opened Values
  import opened Dynamic
  import opened GraphPatterns
  import PlanExprs

  type Codecs = PlanExprs.Codecs

  function ModeName(m: Mode): string {
    match m case Walk => "WALK" case Trail => "TRAIL" case Acyclic => "ACYCLIC" case Simple => "SIMPLE"
  }

  function ModeOf(s: string): Option<Mode> {
    if s == "WALK" then Some(Walk)
    else if s == "TRAIL" then Some(Trail)
    else if s == "ACYCLIC" then Some(Acyclic)
    else if s == "SIMPLE" then Some(Simple)
    else None
  }

  function DirectionName(d: Direction): string {
    match d case Right => "RIGHT" case Left => "LEFT" case AnyDirection => "ANY_DIRECTION"
  }

  function DirectionOf(s: string): Option<Direction> {
    if s == "RIGHT" then Some(Right)
    else if s == "LEFT" then Some(Left)
    else if s == "ANY_DIRECTION" then Some(AnyDirection)
    else None
  }

  function SelectorName(k: SelectorKind): string {
    match k
    case All => "ALL"
    case Any => "ANY"
    case AnyShortest => "ANY_SHORTEST"
    case AllShortest => "ALL_SHORTEST"
    case Shortest => "SHORTEST"
    case ShortestGroups => "SHORTEST_GROUPS"
  }

  function SelectorOf(s: string): Option<SelectorKind> {
    if s == "ALL" then Some(All)
    else if s == "ANY" then Some(Any)
    else if s == "ANY_SHORTEST" then Some(AnyShortest)
    else if s == "ALL_SHORTEST" then Some(AllShortest)
    else if s == "SHORTEST" then Some(Shortest)
    else if s == "SHORTEST_GROUPS" then Some(ShortestGroups)
    else None
  }

  lemma {:induction false} NamesInverse(m: Mode, d: Direction, k: SelectorKind)
    ensures ModeOf(ModeName(m)) == Some(m)
    ensures DirectionOf(DirectionName(d)) == Some(d)
    ensures SelectorOf(SelectorName(k)) == Some(k)
  {
  }

  // ----- Label expressions.

  function SerializeLabel(l: Label): Dyn {
    match l
    case LName(name) => DObj(map[KKind := DStr("NAME"), KName := DStr(name)])
    case LWildcard => DObj(map[KKind := DStr("WILDCARD")])
    case LNegation(operand) => DObj(map[KKind := DStr("NEGATION"), KOperand := SerializeLabel(operand)])
    case LConjunction(operands) =>
      DObj(map[KKind := DStr("CONJUNCTION"),
               KOperands := DArr(seq(|operands|, i requires 0 <= i < |operands| => SerializeLabel(operands[i])))])
    case LDisjunction(operands) =>
      DObj(map[KKind := DStr("DISJUNCTION"),
               KOperands := DArr(seq(|operands|, i requires 0 <= i < |operands| => SerializeLabel(operands[i])))])
  }

  /** A constructor's check. */
  function CheckedLabel(l: Label): Option<Label> {
    match l
    case LName(name) => if name == "" then None else Some(l)
    case LConjunction(operands) => if |operands| < 2 then None else Some(l)
    case LDisjunction(operands) => if |operands| < 2 then None else Some(l)
    case _ => Some(l)
  }

  function CreateLabel(r: Reader, d: Dyn): Option<Label>
    decreases d, 1
  {
    match StringAt(r, d, KKind)
    case None => None
    case Some(kind) =>
      if kind == "NAME" then
        match StringAt(r, d, KName) case None => None case Some(name) => CheckedLabel(LName(name))
      else if kind == "WILDCARD" then Some(LWildcard)
      else if kind == "NEGATION" then
        if !Has(d, KOperand) then None
        else match CreateLabel(r, d.fields[KOperand]) case None => None case Some(operand) => Some(LNegation(operand))
      else if kind == "CONJUNCTION" then
        match CreateOperands(r, d) case None => None case Some(operands) => CheckedLabel(LConjunction(operands))
      else if kind == "DISJUNCTION" then
        match CreateOperands(r, d) case None => None case Some(operands) => CheckedLabel(LDisjunction(operands))
      else None
  }

  function CreateOperands(r: Reader, d: Dyn): Option<seq<Label>>
    decreases d, 0
  {
    if !Has(d, KOperands) || !d.fields[KOperands].DArr? then None
    else
      var items := d.fields[KOperands].items;
      Each(items, x requires x in items => CreateLabel(r, x))
  }

  lemma {:induction false} LabelRoundTrip(r: Reader, l: Label)
    requires ValidReader(r) && ValidLabel(l)
    ensures CreateLabel(r, SerializeLabel(l)) == Some(l)
  {
    match l
    case LName(_) =>
    case LWildcard =>
    case LNegation(operand) => LabelRoundTrip(r, operand);
    case _ =>
      forall i | 0 <= i < |l.operands| ensures CreateLabel(r, SerializeLabel(l.operands[i])) == Some(l.operands[i]) {
        LabelRoundTrip(r, l.operands[i]);
      }
      OperandsTrip(r, SerializeLabel(l), l.operands);
      assert StringAt(r, SerializeLabel(l), KKind) == Some(if l.LConjunction? then "CONJUNCTION" else "DISJUNCTION");
  }

  lemma {:induction false} OperandsTrip(r: Reader, d: Dyn, operands: seq<Label>)
    requires forall i :: 0 <= i < |operands| ==> CreateLabel(r, SerializeLabel(operands[i])) == Some(operands[i])
    requires Has(d, KOperands)
    requires d.fields[KOperands] == DArr(seq(|operands|, i requires 0 <= i < |operands| => SerializeLabel(operands[i])))
    ensures CreateOperands(r, d) == Some(operands)
  {
    var items := d.fields[KOperands].items;
    assert forall i :: 0 <= i < |items| ==> CreateLabel(r, items[i]) == Some(operands[i]);
    var result := CreateOperands(r, d);
    assert result.Some? ==> result.value == operands;
  }

  lemma {:induction false} CreatedLabelIsValid(r: Reader, d: Dyn)
    ensures CreateLabel(r, d).Some? ==> ValidLabel(CreateLabel(r, d).value)
    decreases d, 1
  {
    if CreateLabel(r, d).Some? {
      if Has(d, KOperand) { CreatedLabelIsValid(r, d.fields[KOperand]); }
      CreatedOperandsAreValid(r, d);
    }
  }

  lemma {:induction false} CreatedOperandsAreValid(r: Reader, d: Dyn)
    ensures CreateOperands(r, d).Some? ==> forall l :: l in CreateOperands(r, d).value ==> ValidLabel(l)
    decreases d, 0
  {
    if Has(d, KOperands) && d.fields[KOperands].DArr? {
      var items := d.fields[KOperands].items;
      forall i | 0 <= i < |items| ensures CreateLabel(r, items[i]).Some? ==> ValidLabel(CreateLabel(r, items[i]).value) {
        CreatedLabelIsValid(r, items[i]);
      }
    }
  }

  // ----- Pattern terms.

  function SerializeRepetition(n: Repetition): Dyn {
    DObj(WithMember(map[KMin := DInt(n.min)], KMax, match n.max case None => None case Some(max) => Some(DInt(max))))
  }

  function SerializePredicate(c: Codecs, p: Option<PlanExpr>): Option<Dyn> {
    match p case None => None case Some(e) => Some(PlanExprs.Serialize(c, e))
  }

  function SerializeElement(c: Codecs, kind: string, t: Term): map<Key, Dyn>
    requires !t.Subpath?
  {
    WithMember(
      WithMember(map[KKind := DStr(kind), KName := DStr(t.name)], KPredicate, SerializePredicate(c, t.condition)),
      KLabel, match t.labelExpr case None => None case Some(l) => Some(SerializeLabel(l)))
  }

  function SerializeRepeats(repetition: Option<Repetition>): Option<Dyn> {
    match repetition case None => None case Some(n) => Some(SerializeRepetition(n))
  }

  function SerializeTerm(c: Codecs, t: Term): Dyn
    decreases t, 1
  {
    match t
    case Vertex(_, _, _) => DObj(SerializeElement(c, "VERTEX", t))
    case Edge(_, _, _, direction, repetition) =>
      DObj(WithMember(
        SerializeElement(c, "EDGE", t)[KDirection := DStr(DirectionName(direction))],
        KRepetition, SerializeRepeats(repetition)))
    case Subpath(name, mode, terms, condition, repetition, optional) =>
      var base := WithMember(map[KKind := DStr("SUBPATH"), KName := DStr(name)], KPredicate, SerializePredicate(c, condition));
      var inner := base[KMode := DStr(ModeName(mode))][KTerms := SerializeTerms(c, terms)];
      DObj(WithMember(inner, KRepetition, SerializeRepeats(repetition))[KOptional := DBool(optional)])
  }

  function SerializeTerms(c: Codecs, terms: seq<Term>): Dyn
    decreases terms, 0
  {
    DArr(seq(|terms|, i requires 0 <= i < |terms| => SerializeTerm(c, terms[i])))
  }

  function CheckedTerm(t: Term): (r: Option<Term>)
    ensures r.Some? ==> r.value == t && Accepts(t)
  {
    if Accepts(t) then Some(t) else None
  }

  function CreatePredicate(c: Codecs, d: Dyn): Option<Option<PlanExpr>> {
    if !Has(d, KPredicate) then Some(None)
    else match PlanExprs.Create(c, d.fields[KPredicate]) case None => None case Some(e) => Some(Some(e))
  }

  function CreateLabelAt(r: Reader, d: Dyn): Option<Option<Label>> {
    if !Has(d, KLabel) then Some(None)
    else match CreateLabel(r, d.fields[KLabel]) case None => None case Some(l) => Some(Some(l))
  }

  function CreateRepetition(r: Reader, d: Dyn): Option<Option<Repetition>> {
    if !Has(d, KRepetition) then Some(None)
    else
      var n := d.fields[KRepetition];
      match (IntAt(r, n, KMin), IntAt(r, n, KMax))
      case (None, _) => None
      case (Some(min), None) => if Has(n, KMax) then None else Some(Some(Repetition(min, None)))
      case (Some(min), Some(max)) => Some(Some(Repetition(min, Some(max))))
  }

  function CreateMode(r: Reader, d: Dyn): Option<Mode> {
    match StringAt(r, d, KMode) case None => None case Some(s) => ModeOf(s)
  }

  function CreateTerm(c: Codecs, d: Dyn): (r: Option<Term>)
    ensures r.Some? ==> Accepts(r.value)
    decreases d, 2
  {
    match (StringAt(c.reader, d, KName), CreatePredicate(c, d), StringAt(c.reader, d, KKind))
    case (Some(name), Some(condition), Some(kind)) =>
      if kind == "SUBPATH" then CreateSubpath(c, d, name, condition)
      else if kind == "VERTEX" || kind == "EDGE" then CreateElement(c, d, name, condition, kind == "EDGE")
      else None
    case _ => None
  }

  function CreateSubpath(c: Codecs, d: Dyn, name: string, condition: Option<PlanExpr>): (r: Option<Term>)
    ensures r.Some? ==> Accepts(r.value) && r.value.Subpath?
    decreases d, 1
  {
    match (CreateMode(c.reader, d), CreateTerms(c, d), CreateRepetition(c.reader, d), BoolAt(c.reader, d, KOptional))
    case (Some(mode), Some(terms), Some(repetition), Some(optional)) =>
      CheckedTerm(Subpath(name, mode, terms, condition, repetition, optional))
    case _ => None
  }

  function CreateElement(c: Codecs, d: Dyn, name: string, condition: Option<PlanExpr>, edge: bool): (r: Option<Term>)
    ensures r.Some? ==> Accepts(r.value) && !r.value.Subpath?
  {
    match CreateLabelAt(c.reader, d)
    case None => None
    case Some(l) =>
      if !edge then CheckedTerm(Vertex(name, l, condition))
      else
        match (StringAt(c.reader, d, KDirection), CreateRepetition(c.reader, d))
        case (Some(s), Some(repetition)) =>
          (match DirectionOf(s)
           case None => None
           case Some(direction) => CheckedTerm(Edge(name, l, condition, direction, repetition)))
        case _ => None
  }

  function CreateTerms(c: Codecs, d: Dyn): Option<seq<Term>>
    decreases d, 0
  {
    if !Has(d, KTerms) || !d.fields[KTerms].DArr? then None
    else
      var items := d.fields[KTerms].items;
      Each(items, x requires x in items => CreateTerm(c, x))
  }

  method DeserializeTerms(c: Codecs, d: Dyn) returns (r: Option<seq<Term>>)
    ensures r == CreateTerms(c, d)
  {
    if !Has(d, KTerms) || !d.fields[KTerms].DArr? { return None; }
    var items := d.fields[KTerms].items;
    var terms := [];
    for i := 0 to |items|
      invariant |terms| == i && forall j :: 0 <= j < i ==> CreateTerm(c, items[j]) == Some(terms[j])
    {
      var term := CreateTerm(c, items[i]);
      if term.None? { return None; }
      terms := terms + [term.value];
    }
    r := Some(terms);
    assert CreateTerms(c, d).Some? && CreateTerms(c, d).value == terms;
  }

  /** The predicates inside a term are well-formed expressions. */
  predicate WellFormedTerm(t: Term) {
    && ValidTerm(t)
    && (t.condition.Some? ==> PlanExprs.WellFormed(t.condition.value))
    && (t.Subpath? ==> forall i :: 0 <= i < |t.terms| ==> WellFormedTerm(t.terms[i]))
  }

  lemma {:induction false} PredicateTrips(c: Codecs, d: Dyn, p: Option<PlanExpr>)
    requires PlanExprs.ValidCodecs(c) && (p.Some? ==> PlanExprs.WellFormed(p.value))
    requires Has(d, KPredicate) <==> p.Some?
    requires p.Some? ==> Some(d.fields[KPredicate]) == SerializePredicate(c, p)
    ensures CreatePredicate(c, d) == Some(p)
  {
    if p.Some? { PlanExprs.RoundTrip(c, p.value); }
  }

  lemma {:induction false} RepetitionTrips(r: Reader, d: Dyn, n: Option<Repetition>)
    requires ValidReader(r)
    requires Has(d, KRepetition) <==> n.Some?
    requires n.Some? ==> Some(d.fields[KRepetition]) == SerializeRepeats(n)
    ensures CreateRepetition(r, d) == Some(n)
  {
  }

  lemma {:induction false} ElementTrips(c: Codecs, t: Term)
    requires PlanExprs.ValidCodecs(c) && WellFormedTerm(t) && !t.Subpath?
    ensures CreateTerm(c, SerializeTerm(c, t)) == Some(t)
  {
    var d := SerializeTerm(c, t);
    ElementMembers(c, t);
    PredicateTrips(c, d, t.condition);
    if t.labelExpr.Some? { LabelRoundTrip(c.reader, t.labelExpr.value); }
    assert CreateLabelAt(c.reader, d) == Some(t.labelExpr);
    if t.Edge? {
      NamesInverse(Walk, t.direction, All);
      RepetitionTrips(c.reader, d, t.repetition);
    }
    assert CreateElement(c, d, t.name, t.condition, t.Edge?) == Some(t);
  }

  lemma {:induction false} ElementMembers(c: Codecs, t: Term)
    requires PlanExprs.ValidCodecs(c) && !t.Subpath?
    ensures var d := SerializeTerm(c, t);
            && StringAt(c.reader, d, KName) == Some(t.name)
            && StringAt(c.reader, d, KKind) == Some(if t.Edge? then "EDGE" else "VERTEX")
            && (Has(d, KPredicate) <==> t.condition.Some?)
            && (t.condition.Some? ==> Some(d.fields[KPredicate]) == SerializePredicate(c, t.condition))
            && (Has(d, KLabel) <==> t.labelExpr.Some?)
            && (t.labelExpr.Some? ==> d.fields[KLabel] == SerializeLabel(t.labelExpr.value))
    ensures t.Edge? ==>
              var d := SerializeTerm(c, t);
              && StringAt(c.reader, d, KDirection) == Some(DirectionName(t.direction))
              && (Has(d, KRepetition) <==> t.repetition.Some?)
              && (t.repetition.Some? ==> Some(d.fields[KRepetition]) == SerializeRepeats(t.repetition))
  {
  }

  lemma {:induction false} SubpathMembers(c: Codecs, t: Term)
    requires PlanExprs.ValidCodecs(c) && t.Subpath?
    ensures var d := SerializeTerm(c, t);
            && StringAt(c.reader, d, KName) == Some(t.name)
            && StringAt(c.reader, d, KKind) == Some("SUBPATH")
            && StringAt(c.reader, d, KMode) == Some(ModeName(t.mode))
            && BoolAt(c.reader, d, KOptional) == Some(t.optional)
            && Has(d, KTerms) && d.fields[KTerms] == SerializeTerms(c, t.terms)
            && (Has(d, KPredicate) <==> t.condition.Some?)
            && (t.condition.Some? ==> Some(d.fields[KPredicate]) == SerializePredicate(c, t.condition))
            && (Has(d, KRepetition) <==> t.repetition.Some?)
            && (t.repetition.Some? ==> Some(d.fields[KRepetition]) == SerializeRepeats(t.repetition))
  {
  }

  /** Deserializing what a valid term serializes to gives the term back, at any nesting. */
  lemma {:induction false} TermRoundTrip(c: Codecs, t: Term)
    requires PlanExprs.ValidCodecs(c) && WellFormedTerm(t)
    ensures CreateTerm(c, SerializeTerm(c, t)) == Some(t)
    decreases t, 1
  {
    if !t.Subpath? {
      ElementTrips(c, t);
    } else {
      SubpathMembers(c, t);
      TermsRoundTrip(c, SerializeTerm(c, t), t.terms);
      SubpathTrips(c, t);
    }
  }

  lemma {:induction false} SubpathTrips(c: Codecs, t: Term)
    requires PlanExprs.ValidCodecs(c) && WellFormedTerm(t) && t.Subpath?
    requires CreateTerms(c, SerializeTerm(c, t)) == Some(t.terms)
    ensures CreateTerm(c, SerializeTerm(c, t)) == Some(t)
  {
    var d := SerializeTerm(c, t);
    SubpathMembers(c, t);
    PredicateTrips(c, d, t.condition);
    RepetitionTrips(c.reader, d, t.repetition);
    NamesInverse(t.mode, Right, All);
    assert CreateSubpath(c, d, t.name, t.condition) == Some(t);
  }

  lemma {:induction false} TermsRoundTrip(c: Codecs, d: Dyn, terms: seq<Term>)
    requires PlanExprs.ValidCodecs(c) && forall i :: 0 <= i < |terms| ==> WellFormedTerm(terms[i])
    requires Has(d, KTerms) && d.fields[KTerms] == SerializeTerms(c, terms)
    ensures CreateTerms(c, d) == Some(terms)
    decreases terms, 0
  {
    var items := d.fields[KTerms].items;
    forall i | 0 <= i < |items| ensures CreateTerm(c, items[i]) == Some(terms[i]) {
      assert items[i] == SerializeTerm(c, terms[i]);
      TermRoundTrip(c, terms[i]);
    }
    var result := CreateTerms(c, d);
    assert result.Some? ==> result.value == terms;
  }

  /** Whatever data a term can be created from, it satisfies every constructor's invariants, at
      every depth: a repeated subpath, say, has no repeated term inside. */
  lemma {:induction false} CreatedTermIsValid(c: Codecs, d: Dyn)
    ensures CreateTerm(c, d).Some? ==> WellFormedTerm(CreateTerm(c, d).value)
    decreases d, 1
  {
    if CreateTerm(c, d).Some? {
      if Has(d, KPredicate) { PlanExprs.CreatedIsWellFormed(c, d.fields[KPredicate]); }
      if Has(d, KLabel) { CreatedLabelIsValid(c.reader, d.fields[KLabel]); }
      var kind := StringAt(c.reader, d, KKind).value;
      var name, condition := StringAt(c.reader, d, KName).value, CreatePredicate(c, d).value;
      if kind == "SUBPATH" {
        assert CreateTerm(c, d) == CreateSubpath(c, d, name, condition);
        CreatedTermsAreValid(c, d);
        var t := CreateSubpath(c, d, name, condition).value;
        assert Some(t.terms) == CreateTerms(c, d);
        forall i | 0 <= i < |t.terms| ensures WellFormedTerm(t.terms[i]) { assert t.terms[i] in t.terms; }
      } else {
        assert CreateTerm(c, d) == CreateElement(c, d, name, condition, kind == "EDGE");
      }
    }
  }

  lemma {:induction false} CreatedTermsAreValid(c: Codecs, d: Dyn)
    ensures CreateTerms(c, d).Some? ==> forall t :: t in CreateTerms(c, d).value ==> WellFormedTerm(t)
    decreases d, 0
  {
    if Has(d, KTerms) && d.fields[KTerms].DArr? {
      var items := d.fields[KTerms].items;
      forall i | 0 <= i < |items|
        ensures CreateTerm(c, items[i]).Some? ==> WellFormedTerm(CreateTerm(c, items[i]).value)
      {
        CreatedTermIsValid(c, items[i]);
      }
    }
  }

  // ----- Path patterns.

  function SerializePath(c: Codecs, p: Path): Dyn {
    var selector :=
      WithMember(map[KKind := DStr(SelectorName(p.selector.kind))], KCount,
        match p.selector.count case None => None case Some(n) => Some(DInt(n)));
    DObj(map[KName := DStr(p.name), KSelector := DObj(selector), KMode := DStr(ModeName(p.mode)),
             KTerms := SerializeTerms(c, p.terms)])
  }

  function CreateSelector(r: Reader, d: Dyn): Option<Selector> {
    match (StringAt(r, d, KKind), IntAt(r, d, KCount))
    case (Some(s), count) =>
      (match SelectorOf(s)
       case None => None
       case Some(kind) => if Has(d, KCount) && count.None? then None else Some(Selector(kind, count)))
    case _ => None
  }

  function CreatePath(c: Codecs, d: Dyn): Option<Path> {
    if !Has(d, KSelector) then None
    else
      match (StringAt(c.reader, d, KName), CreateSelector(c.reader, d.fields[KSelector]), CreateMode(c.reader, d), CreateTerms(c, d))
      case (Some(name), Some(selector), Some(mode), Some(terms)) => Some(Path(name, selector, mode, terms))
      case _ => None
  }

  lemma {:induction false} PathRoundTrip(c: Codecs, p: Path)
    requires PlanExprs.ValidCodecs(c) && forall i :: 0 <= i < |p.terms| ==> WellFormedTerm(p.terms[i])
    ensures CreatePath(c, SerializePath(c, p)) == Some(p)
  {
    var d := SerializePath(c, p);
    PathMembers(c, p);
    assert CreateMode(c.reader, d) == Some(p.mode) by { NamesInverse(p.mode, Right, All); }
    TermsRoundTrip(c, d, p.terms);
  }

  lemma {:induction false} PathMembers(c: Codecs, p: Path)
    requires PlanExprs.ValidCodecs(c)
    ensures var d := SerializePath(c, p);
            && StringAt(c.reader, d, KName) == Some(p.name)
            && StringAt(c.reader, d, KMode) == Some(ModeName(p.mode))
            && Has(d, KTerms) && d.fields[KTerms] == SerializeTerms(c, p.terms)
            && Has(d, KSelector) && CreateSelector(c.reader, d.fields[KSelector]) == Some(p.selector)
  {
    NamesInverse(p.mode, Right, p.selector.kind);
  }

  /** Path data that deserializes holds only well-formed terms; an empty list is accepted. */
  lemma {:induction false} CreatedPathIsValid(c: Codecs, d: Dyn)
    ensures CreatePath(c, d).Some? ==> forall t :: t in CreatePath(c, d).value.terms ==> WellFormedTerm(t)
  {
    CreatedTermsAreValid(c, d);
  }
}
