/** The builder of graph matches: a stack of open subpaths and a term that may still change.
    Tables of the graph and the resolution of predicates are parameters. A call that the source
    rejects by throwing yields None; what the builder then holds is not described. */
module GraphMatchBuilder {
  import opened Wrappers
  import opened GraphPatterns

  /** A vertex or edge pattern name with the tables its patterns can match. */
  datatype Element = Element(edge: bool, tables: seq<nat>)

  /** matching: the tables a label expression selects among the vertex or the edge tables.
      resolve: a predicate's text, over ROWs of the named elements. */
  datatype Context = Context(
    matching: (Option<Label>, bool) -> seq<nat>,
    resolve: (string, set<string>, map<string, Element>) -> Option<PlanExpr>)

  datatype OpenSubpath = OpenSubpath(name: string, mode: Mode, terms: seq<Term>, names: set<string>)

  datatype State = State(
    paths: seq<Path>,
    subpaths: seq<OpenSubpath>,
    pending: Option<Term>,
    elements: map<string, Element>,
    pathNames: set<string>,
    filter: Option<PlanExpr>)

  const Initial := State([], [], None, map[], {}, None)

  datatype Op =
    | OpPath(name: string, selector: Selector, mode: Mode)
    | OpVertex(name: string, labelExpr: Option<Label>, predicateText: Option<string>)
    | OpEdge(name: string, labelExpr: Option<Label>, predicateText: Option<string>, direction: Direction)
    | OpRepeats(min: int, max: Option<int>)
    | OpOptional
    | OpStartSubpath(name: string, mode: Mode)
    | OpEndSubpath(predicateText: Option<string>)
    | OpFilter(condition: string)

  const NoPath := Path("", Selector(All, None), Walk, [])

  function Intersect(tables: seq<nat>, other: seq<nat>): (r: seq<nat>)
    ensures forall t :: t in r <==> t in tables && t in other
  {
    if tables == [] then []
    else (if tables[0] in other then [tables[0]] else []) + Intersect(tables[1..], other)
  }

  function AddElement(ctx: Context, elements: map<string, Element>, name: string, l: Option<Label>, edge: bool): map<string, Element> {
    if name == "" then elements
    else
      var tables := ctx.matching(l, edge);
      if name !in elements then elements[name := Element(edge, tables)]
      else if elements[name].edge == edge then elements[name := Element(edge, Intersect(elements[name].tables, tables))]
      else elements
  }

  function WithNames(subpaths: seq<OpenSubpath>, names: set<string>): (r: seq<OpenSubpath>)
    ensures |r| == |subpaths|
    ensures forall i :: 0 <= i < |r| ==> r[i] == subpaths[i].(names := subpaths[i].names + names)
  {
    seq(|subpaths|, i requires 0 <= i < |subpaths| => subpaths[i].(names := subpaths[i].names + names))
  }

  function NonEmpty(name: string): set<string> {
    if name == "" then {} else {name}
  }

  /** Adds built terms to the innermost open subpath, or to the last path. */
  function Append(s: State, terms: seq<Term>): State {
    if terms == [] then s
    else if s.subpaths != [] then
      var n := |s.subpaths| - 1;
      s.(subpaths := s.subpaths[n := s.subpaths[n].(terms := s.subpaths[n].terms + terms)])
    else
      s.(paths := Extended(if s.paths == [] then [NoPath] else s.paths, terms))
  }

  /** Adds terms to the last path. */
  function Extended(paths: seq<Path>, terms: seq<Term>): seq<Path>
    requires paths != []
  {
    var n := |paths| - 1;
    paths[n := paths[n].(terms := paths[n].terms + terms)]
  }

  /** Builds the pending term, whose constructor may reject it. */
  function Flush(s: State): Option<State> {
    match s.pending
    case None => Some(s)
    case Some(t) => if Accepts(t) then Some(Append(s.(pending := None), [t])) else None
  }

  function Resolve(ctx: Context, text: Option<string>, names: set<string>, elements: map<string, Element>): Option<Option<PlanExpr>> {
    match text
    case None => Some(None)
    case Some(sql) => match ctx.resolve(sql, names, elements) case None => None case Some(e) => Some(Some(e))
  }

  function StepElement(ctx: Context, f: State, name: string, l: Option<Label>, text: Option<string>, direction: Option<Direction>): Option<State> {
    var elements := AddElement(ctx, f.elements, name, l, direction.Some?);
    match Resolve(ctx, text, {name}, elements)
    case None => None
    case Some(condition) =>
      var term :=
        match direction case None => Vertex(name, l, condition) case Some(d) => Edge(name, l, condition, d, None);
      Some(f.(elements := elements, subpaths := WithNames(f.subpaths, NonEmpty(name)), pending := Some(term)))
  }

  function Entered(f: State, name: string, mode: Mode): State {
    f.(pathNames := f.pathNames + NonEmpty(name), subpaths := f.subpaths + [OpenSubpath(name, mode, [], {})])
  }

  /** One call, on a builder whose pending term has been built. */
  function StepFlushed(ctx: Context, f: State, op: Op): Option<State>
    requires !op.OpRepeats? && !op.OpOptional?
  {
    match op
    case OpPath(name, selector, mode) =>
      if f.subpaths != [] then None
      else Some(f.(pathNames := f.pathNames + NonEmpty(name), paths := f.paths + [Path(name, selector, mode, [])]))
    case OpVertex(name, l, text) => StepElement(ctx, f, name, l, text, None)
    case OpEdge(name, l, text, direction) => StepElement(ctx, f, name, l, text, Some(direction))
    case OpStartSubpath(name, mode) =>
      Some(Entered(f, name, mode))
    case OpEndSubpath(text) =>
      if f.subpaths == [] then None
      else
        var n := |f.subpaths| - 1;
        var open := f.subpaths[n];
        (match Resolve(ctx, text, open.names, f.elements)
         case None => None
         case Some(condition) =>
           Some(f.(subpaths := f.subpaths[..n],
                   pending := Some(Subpath(open.name, open.mode, open.terms, condition, None, false)))))
    case OpFilter(text) =>
      if f.filter.Some? then None
      else match ctx.resolve(text, f.elements.Keys, f.elements) case None => None case Some(e) => Some(f.(filter := Some(e)))
  }

  function Step(ctx: Context, s: State, op: Op): Option<State> {
    match op
    case OpRepeats(min, max) =>
      if s.pending.Some? && !s.pending.value.Vertex? then
        Some(s.(pending := Some(s.pending.value.(repetition := Some(Repetition(min, max))))))
      else None
    case OpOptional =>
      if s.pending.Some? && s.pending.value.Subpath? then Some(s.(pending := Some(s.pending.value.(optional := true))))
      else None
    case _ => match Flush(s) case None => None case Some(f) => StepFlushed(ctx, f, op)
  }

  function Run(ctx: Context, s: State, ops: seq<Op>): Option<State>
    decreases ops
  {
    if ops == [] then Some(s)
    else match Step(ctx, s, ops[0]) case None => None case Some(t) => Run(ctx, t, ops[1..])
  }

  /** The patterns that endGraphMatch hands over. */
  function Finish(s: State): Option<seq<Path>> {
    match Flush(s)
    case None => None
    case Some(f) => if f.subpaths != [] then None else Some(f.paths)
  }

  lemma {:induction false} RunConcat(ctx: Context, s: State, a: seq<Op>, b: seq<Op>)
    ensures Run(ctx, s, a + b) == match Run(ctx, s, a) case None => None case Some(t) => Run(ctx, t, b)
    decreases a
  {
    if a == [] {
      assert a + b == b;
    } else {
      assert (a + b)[1..] == a[1..] + b;
      if Step(ctx, s, a[0]).Some? { RunConcat(ctx, Step(ctx, s, a[0]).value, a[1..], b); }
    }
  }

  // ----- The calls that spell out patterns.

  function SpellPredicate(quote: PlanExpr -> string, p: Option<PlanExpr>): Option<string> {
    match p case None => None case Some(e) => Some(quote(e))
  }

  function SpellRepeats(n: Option<Repetition>): seq<Op> {
    match n case None => [] case Some(r) => [OpRepeats(r.min, r.max)]
  }

  function SpellTerm(quote: PlanExpr -> string, t: Term): seq<Op>
    decreases t, 0
  {
    match t
    case Vertex(name, l, condition) => [OpVertex(name, l, SpellPredicate(quote, condition))]
    case Edge(name, l, condition, direction, repetition) =>
      [OpEdge(name, l, SpellPredicate(quote, condition), direction)] + SpellRepeats(repetition)
    case Subpath(name, mode, terms, condition, repetition, optional) =>
      [OpStartSubpath(name, mode)] + SpellTerms(quote, terms) + [OpEndSubpath(SpellPredicate(quote, condition))]
      + SpellRepeats(repetition) + if optional then [OpOptional] else []
  }

  function SpellTerms(quote: PlanExpr -> string, terms: seq<Term>): seq<Op>
    decreases terms, |terms|
  {
    if terms == [] then []
    else
      var n := |terms| - 1;
      assert terms[n] in terms;
      SpellTerms(quote, terms[..n]) + SpellTerm(quote, terms[n])
  }

  function SpellPaths(quote: PlanExpr -> string, paths: seq<Path>): seq<Op> {
    if paths == [] then []
    else
      var n := |paths| - 1;
      SpellPaths(quote, paths[..n]) + [OpPath(paths[n].name, paths[n].selector, paths[n].mode)]
      + SpellTerms(quote, paths[n].terms)
  }

  // ----- What a term adds to the builder, and where its predicates are resolved.

  function ElementsAfter(ctx: Context, elements: map<string, Element>, t: Term): map<string, Element>
    decreases t, 0
  {
    match t
    case Subpath(_, _, terms, _, _, _) => ElementsAfterAll(ctx, elements, terms)
    case _ => AddElement(ctx, elements, t.name, t.labelExpr, t.Edge?)
  }

  function ElementsAfterAll(ctx: Context, elements: map<string, Element>, terms: seq<Term>): map<string, Element>
    decreases terms, |terms|
  {
    if terms == [] then elements
    else
      var n := |terms| - 1;
      assert terms[n] in terms;
      ElementsAfter(ctx, ElementsAfterAll(ctx, elements, terms[..n]), terms[n])
  }

  function PathNamesOf(t: Term): set<string>
    decreases t, 0
  {
    if t.Subpath? then NonEmpty(t.name) + PathNamesOfAll(t.terms) else {}
  }

  function PathNamesOfAll(terms: seq<Term>): set<string>
    decreases terms, |terms|
  {
    if terms == [] then {}
    else
      var n := |terms| - 1;
      assert terms[n] in terms;
      PathNamesOfAll(terms[..n]) + PathNamesOf(terms[n])
  }

  predicate ResolvesTo(ctx: Context, quote: PlanExpr -> string, p: Option<PlanExpr>, names: set<string>, elements: map<string, Element>) {
    p.Some? ==> ctx.resolve(quote(p.value), names, elements) == p
  }

  /** Each predicate is what its text resolves to where it stands: over its own element, or
      over the elements inside its subpath, as the patterns up to there define them. */
  predicate Resolved(ctx: Context, quote: PlanExpr -> string, elements: map<string, Element>, t: Term)
    decreases t, 0
  {
    && ResolvesTo(ctx, quote, t.condition, if t.Subpath? then ElementNames(t.terms) else {t.name}, ElementsAfter(ctx, elements, t))
    && (t.Subpath? ==> ResolvedAll(ctx, quote, elements, t.terms))
  }

  predicate ResolvedAll(ctx: Context, quote: PlanExpr -> string, elements: map<string, Element>, terms: seq<Term>)
    decreases terms, |terms|
  {
    terms != [] ==>
      var n := |terms| - 1;
      assert terms[n] in terms;
      && ResolvedAll(ctx, quote, elements, terms[..n])
      && Resolved(ctx, quote, ElementsAfterAll(ctx, elements, terms[..n]), terms[n])
  }

  /** The builder after the calls of a term: the term is pending. */
  function After(ctx: Context, f: State, t: Term): State {
    f.(subpaths := WithNames(f.subpaths, TermNames(t)), pending := Some(t),
       elements := ElementsAfter(ctx, f.elements, t), pathNames := f.pathNames + PathNamesOf(t))
  }

  /** The builder after the calls of several terms, once the last one is built. */
  function AfterAll(ctx: Context, f: State, terms: seq<Term>): State {
    Append(
      f.(subpaths := WithNames(f.subpaths, ElementNames(terms)), pending := None,
         elements := ElementsAfterAll(ctx, f.elements, terms), pathNames := f.pathNames + PathNamesOfAll(terms)),
      terms)
  }

  lemma {:induction false} TermRebuilds(ctx: Context, quote: PlanExpr -> string, s: State, f: State, t: Term)
    requires Flush(s) == Some(f) && ValidTerm(t) && Resolved(ctx, quote, f.elements, t)
    ensures Run(ctx, s, SpellTerm(quote, t)) == Some(After(ctx, f, t))
    decreases t, 0
  {
    match t
    case Vertex(name, l, condition) =>
      RunOne(ctx, s, OpVertex(name, l, SpellPredicate(quote, condition)));
      assert TermNames(t) == NonEmpty(name) && f.pathNames + {} == f.pathNames;
    case Edge(name, l, condition, direction, repetition) =>
      var first := OpEdge(name, l, SpellPredicate(quote, condition), direction);
      RunConcat(ctx, s, [first], SpellRepeats(repetition));
      RunOne(ctx, s, first);
      var plain := After(ctx, f, Edge(name, l, condition, direction, None));
      assert ElementsAfter(ctx, f.elements, t) == plain.elements && TermNames(t) == NonEmpty(name);
      assert plain.pathNames == f.pathNames;
      assert After(ctx, f, t) == plain.(pending := Some(t));
      RepeatsApply(ctx, plain, t);
    case Subpath(name, mode, terms, condition, repetition, optional) =>
      SubpathRebuilds(ctx, quote, s, f, t);
  }

  lemma {:induction false} RunOne(ctx: Context, s: State, op: Op)
    ensures Run(ctx, s, [op]) == Step(ctx, s, op)
  {
    if Step(ctx, s, op).Some? { assert Run(ctx, Step(ctx, s, op).value, []) == Step(ctx, s, op); }
  }

  lemma {:induction false} RepeatsApply(ctx: Context, s: State, t: Term)
    requires !t.Vertex? && s.pending == Some(t.(repetition := None))
    ensures Run(ctx, s, SpellRepeats(t.repetition)) == Some(s.(pending := Some(t)))
  {
    if t.repetition.Some? { RunOne(ctx, s, OpRepeats(t.repetition.value.min, t.repetition.value.max)); }
  }

  lemma {:induction false} SubpathRebuilds(ctx: Context, quote: PlanExpr -> string, s: State, f: State, t: Term)
    requires t.Subpath? && Flush(s) == Some(f) && ValidTerm(t) && Resolved(ctx, quote, f.elements, t)
    ensures Run(ctx, s, SpellTerm(quote, t)) == Some(After(ctx, f, t))
    decreases t.terms, |t.terms| + 1
  {
    var start := OpStartSubpath(t.name, t.mode);
    var inside := SpellTerms(quote, t.terms);
    var end := OpEndSubpath(SpellPredicate(quote, t.condition));
    var rest := SpellRepeats(t.repetition) + if t.optional then [OpOptional] else [];
    assert SpellTerm(quote, t) == [start] + (inside + ([end] + rest));
    var entered := Entered(f, t.name, t.mode);
    RunConcat(ctx, s, [start], inside + ([end] + rest));
    RunOne(ctx, s, start);
    TermsRebuild(ctx, quote, entered, entered, t.terms);
    RunConcat(ctx, entered, inside, [end] + rest);
    var filled := Run(ctx, entered, inside).value;
    EndRebuilds(ctx, quote, f, filled, t);
    RunConcat(ctx, filled, [end], rest);
    RunOne(ctx, filled, end);
    SuffixApplies(ctx, After(ctx, f, t.(repetition := None, optional := false)), t);
  }

  lemma {:induction false} EndRebuilds(ctx: Context, quote: PlanExpr -> string, f: State, filled: State, t: Term)
    requires t.Subpath? && f.pending == None && Resolved(ctx, quote, f.elements, t)
    requires Flush(filled) == Some(AfterAll(ctx, Entered(f, t.name, t.mode), t.terms))
    ensures Step(ctx, filled, OpEndSubpath(SpellPredicate(quote, t.condition)))
         == Some(After(ctx, f, t.(repetition := None, optional := false)))
  {
    var entered := Entered(f, t.name, t.mode);
    var g := AfterAll(ctx, entered, t.terms);
    assert |g.subpaths| == |f.subpaths| + 1;
    assert g.subpaths[|f.subpaths|] == OpenSubpath(t.name, t.mode, t.terms, ElementNames(t.terms));
    var plain := t.(repetition := None, optional := false);
    assert After(ctx, f, plain).pathNames == g.pathNames;
    assert After(ctx, f, plain).subpaths == g.subpaths[..|f.subpaths|] by {
      assert g.subpaths[..|f.subpaths|] == WithNames(f.subpaths, ElementNames(t.terms));
    }
  }

  lemma {:induction false} SuffixApplies(ctx: Context, s: State, t: Term)
    requires t.Subpath? && s.pending == Some(t.(repetition := None, optional := false))
    ensures Run(ctx, s, SpellRepeats(t.repetition) + if t.optional then [OpOptional] else []) == Some(s.(pending := Some(t)))
  {
    var plain := t.(optional := false);
    RunConcat(ctx, s, SpellRepeats(t.repetition), if t.optional then [OpOptional] else []);
    RepeatsApply(ctx, s, plain);
    if t.optional { RunOne(ctx, s.(pending := Some(plain)), OpOptional); }
  }

  lemma {:induction false} TermsRebuild(ctx: Context, quote: PlanExpr -> string, s: State, f: State, terms: seq<Term>)
    requires Flush(s) == Some(f) && ValidTerms(terms) && ResolvedAll(ctx, quote, f.elements, terms)
    ensures var r := Run(ctx, s, SpellTerms(quote, terms)); r.Some? && Flush(r.value) == Some(AfterAll(ctx, f, terms))
    decreases terms, |terms|
  {
    if terms == [] {
      assert forall i :: 0 <= i < |f.subpaths| ==> f.subpaths[i].names + {} == f.subpaths[i].names;
      assert WithNames(f.subpaths, {}) == f.subpaths && f.pathNames + {} == f.pathNames;
    } else {
      var n := |terms| - 1;
      assert terms[n] in terms;
      TermsRebuild(ctx, quote, s, f, terms[..n]);
      var r := Run(ctx, s, SpellTerms(quote, terms[..n])).value;
      var g := AfterAll(ctx, f, terms[..n]);
      RunConcat(ctx, s, SpellTerms(quote, terms[..n]), SpellTerm(quote, terms[n]));
      TermRebuilds(ctx, quote, r, g, terms[n]);
      AppendOneMore(ctx, f, terms);
    }
  }

  lemma {:induction false} NamesAccumulate(subpaths: seq<OpenSubpath>, a: set<string>, b: set<string>)
    ensures WithNames(WithNames(subpaths, a), b) == WithNames(subpaths, a + b)
  {
    assert forall i :: 0 <= i < |subpaths| ==> subpaths[i].names + a + b == subpaths[i].names + (a + b);
  }

  lemma {:induction false} AppendTwice(s: State, terms: seq<Term>, t: Term)
    ensures Append(Append(s, terms), [t]) == Append(s, terms + [t])
  {
    if terms == [] {
      assert terms + [t] == [t];
    } else if s.subpaths != [] {
      var n := |s.subpaths| - 1;
      assert s.subpaths[n].terms + (terms + [t]) == s.subpaths[n].terms + terms + [t];
    } else {
      var paths := if s.paths == [] then [NoPath] else s.paths;
      var n := |paths| - 1;
      assert paths[n].terms + (terms + [t]) == paths[n].terms + terms + [t];
    }
  }

  lemma {:induction false} AppendKeepsNames(s: State, names: set<string>, elements: map<string, Element>, pathNames: set<string>, terms: seq<Term>)
    ensures var g := Append(s, terms);
            g.(subpaths := WithNames(g.subpaths, names), elements := elements, pathNames := pathNames)
            == Append(s.(subpaths := WithNames(s.subpaths, names), elements := elements, pathNames := pathNames), terms)
  {
    var g := Append(s, terms);
    var h := Append(s.(subpaths := WithNames(s.subpaths, names), elements := elements, pathNames := pathNames), terms);
    assert h.subpaths == WithNames(g.subpaths, names);
  }

  lemma {:induction false} AppendOneMore(ctx: Context, f: State, terms: seq<Term>)
    requires terms != [] && f.pending == None && ValidTerms(terms)
    ensures Flush(After(ctx, AfterAll(ctx, f, terms[..|terms| - 1]), terms[|terms| - 1])) == Some(AfterAll(ctx, f, terms))
  {
    var n := |terms| - 1;
    var a, b := ElementNames(terms[..n]), TermNames(terms[n]);
    var f1 := f.(subpaths := WithNames(f.subpaths, a), elements := ElementsAfterAll(ctx, f.elements, terms[..n]),
                 pathNames := f.pathNames + PathNamesOfAll(terms[..n]));
    var g := Append(f1, terms[..n]);
    assert g == AfterAll(ctx, f, terms[..n]);
    var elements := ElementsAfterAll(ctx, f.elements, terms);
    var pathNames := g.pathNames + PathNamesOf(terms[n]);
    assert pathNames == f.pathNames + PathNamesOfAll(terms);
    AppendKeepsNames(f1, b, elements, pathNames, terms[..n]);
    NamesAccumulate(f.subpaths, a, b);
    var f2 := f.(subpaths := WithNames(f.subpaths, a + b), elements := elements, pathNames := pathNames);
    AppendTwice(f2, terms[..n], terms[n]);
    assert terms == terms[..n] + [terms[n]];
    assert AfterAll(ctx, f, terms) == Append(f2, terms);
  }

  // ----- Whole graph matches.

  function ElementsOfPaths(ctx: Context, paths: seq<Path>): map<string, Element> {
    if paths == [] then map[]
    else ElementsAfterAll(ctx, ElementsOfPaths(ctx, paths[..|paths| - 1]), paths[|paths| - 1].terms)
  }

  function PathNamesOfPaths(paths: seq<Path>): set<string> {
    if paths == [] then {}
    else
      var last := paths[|paths| - 1];
      PathNamesOfPaths(paths[..|paths| - 1]) + NonEmpty(last.name) + PathNamesOfAll(last.terms)
  }

  predicate ResolvedPaths(ctx: Context, quote: PlanExpr -> string, paths: seq<Path>) {
    paths != [] ==>
      var n := |paths| - 1;
      && ResolvedPaths(ctx, quote, paths[..n])
      && ResolvedAll(ctx, quote, ElementsOfPaths(ctx, paths[..n]), paths[n].terms)
  }

  ghost predicate ValidPaths(paths: seq<Path>) {
    forall i :: 0 <= i < |paths| ==> ValidTerms(paths[i].terms)
  }

  lemma {:induction false} PathsRebuild(ctx: Context, quote: PlanExpr -> string, paths: seq<Path>)
    requires ValidPaths(paths) && ResolvedPaths(ctx, quote, paths)
    ensures var r := Run(ctx, Initial, SpellPaths(quote, paths));
            r.Some? && Flush(r.value) == Some(State(paths, [], None, ElementsOfPaths(ctx, paths), PathNamesOfPaths(paths), None))
  {
    if paths != [] {
      var n := |paths| - 1;
      var p := paths[n];
      PathsRebuild(ctx, quote, paths[..n]);
      var start := OpPath(p.name, p.selector, p.mode);
      var before := Run(ctx, Initial, SpellPaths(quote, paths[..n])).value;
      RunConcat(ctx, Initial, SpellPaths(quote, paths[..n]) + [start], SpellTerms(quote, p.terms));
      RunConcat(ctx, Initial, SpellPaths(quote, paths[..n]), [start]);
      RunOne(ctx, before, start);
      PathRebuilds(ctx, quote, before, paths);
    }
  }

  /** The last path, once the others are rebuilt. */
  lemma {:induction false} PathRebuilds(ctx: Context, quote: PlanExpr -> string, before: State, paths: seq<Path>)
    requires paths != [] && ValidPaths(paths) && ResolvedPaths(ctx, quote, paths)
    requires var rest := paths[..|paths| - 1];
             Flush(before) == Some(State(rest, [], None, ElementsOfPaths(ctx, rest), PathNamesOfPaths(rest), None))
    ensures var p := paths[|paths| - 1];
            var g := Step(ctx, before, OpPath(p.name, p.selector, p.mode));
            && g.Some? && var r := Run(ctx, g.value, SpellTerms(quote, p.terms));
            && r.Some? && Flush(r.value) == Some(State(paths, [], None, ElementsOfPaths(ctx, paths), PathNamesOfPaths(paths), None))
  {
    var p := paths[|paths| - 1];
    var g := Step(ctx, before, OpPath(p.name, p.selector, p.mode)).value;
    TermsRebuild(ctx, quote, g, g, p.terms);
    assert [] + p.terms == p.terms;
    assert AfterAll(ctx, g, p.terms).paths == paths;
    assert AfterAll(ctx, g, p.terms).pathNames == PathNamesOfPaths(paths);
  }

  /** The calls that spell out any list of valid patterns rebuild exactly that list, however the
      subpaths nest. */
  lemma {:induction false} BuilderRoundTrip(ctx: Context, quote: PlanExpr -> string, paths: seq<Path>)
    requires ValidPaths(paths) && ResolvedPaths(ctx, quote, paths)
    ensures var r := Run(ctx, Initial, SpellPaths(quote, paths)); r.Some? && Finish(r.value) == Some(paths)
  {
    PathsRebuild(ctx, quote, paths);
  }

  /** Without a call that starts a path, terms go to an unnamed one that selects all walks. */
  lemma {:induction false} ImplicitPath(ctx: Context, quote: PlanExpr -> string, terms: seq<Term>)
    requires ValidTerms(terms) && ResolvedAll(ctx, quote, map[], terms)
    ensures var r := Run(ctx, Initial, SpellTerms(quote, terms));
            r.Some? && Finish(r.value) == Some(if terms == [] then [] else [NoPath.(terms := terms)])
  {
    TermsRebuild(ctx, quote, Initial, Initial, terms);
    assert NoPath.(terms := [] + terms) == NoPath.(terms := terms);
    assert WithNames([], ElementNames(terms)) == [];
    assert AfterAll(ctx, Initial, terms).paths == if terms == [] then [] else [NoPath.(terms := terms)];
  }

  // ----- What holds after any calls.

  /** The element names a subpath at the level, or the pending term below all of them, holds. */
  ghost function NamesBelow(s: State, level: nat): set<string> {
    if level < |s.subpaths| then s.subpaths[level].names
    else if s.pending.Some? then TermNames(s.pending.value)
    else {}
  }

  ghost function NamesOfPaths(paths: seq<Path>): set<string> {
    if paths == [] then {} else NamesOfPaths(paths[..|paths| - 1]) + ElementNames(paths[|paths| - 1].terms)
  }

  ghost predicate PendingIsSound(t: Term) {
    if t.Subpath? then ValidTerms(t.terms) else t.labelExpr.Some? ==> ValidLabel(t.labelExpr.value)
  }

  ghost predicate OpenInv(o: OpenSubpath, below: set<string>) {
    ValidTerms(o.terms) && o.names == ElementNames(o.terms) + below
  }

  ghost predicate Inv(s: State) {
    && (forall i :: 0 <= i < |s.subpaths| ==> OpenInv(s.subpaths[i], NamesBelow(s, i + 1)))
    && ValidPaths(s.paths)
    && (s.pending.Some? ==> PendingIsSound(s.pending.value))
    && s.elements.Keys == NamesOfPaths(s.paths) + NamesBelow(s, 0)
  }

  ghost predicate ValidOp(op: Op) {
    (op.OpVertex? || op.OpEdge?) && op.labelExpr.Some? ==> ValidLabel(op.labelExpr.value)
  }

  lemma {:induction false} NamesOfAppended(terms: seq<Term>, t: Term)
    ensures ElementNames(terms + [t]) == ElementNames(terms) + TermNames(t)
  {
    assert (terms + [t])[..|terms|] == terms;
  }

  lemma {:induction false} OpenGrows(o: OpenSubpath, t: Term)
    requires OpenInv(o, TermNames(t)) && ValidTerm(t)
    ensures OpenInv(o.(terms := o.terms + [t]), {})
  {
    NamesOfAppended(o.terms, t);
  }

  lemma {:induction false} AppendToSubpath(s: State, t: Term, grown: OpenSubpath)
    requires Inv(s) && s.pending == Some(t) && s.subpaths != [] && OpenInv(grown, {})
    requires var last := s.subpaths[|s.subpaths| - 1]; grown.name == last.name && grown.mode == last.mode && grown.names == last.names
    ensures Inv(s.(pending := None, subpaths := s.subpaths[|s.subpaths| - 1 := grown]))
  {
    var n := |s.subpaths| - 1;
    var f := s.(pending := None, subpaths := s.subpaths[n := grown]);
    assert NamesBelow(f, n + 1) == {};
    forall i | 0 <= i < n ensures OpenInv(f.subpaths[i], NamesBelow(f, i + 1)) {
      assert f.subpaths[i] == s.subpaths[i] && NamesBelow(f, i + 1) == NamesBelow(s, i + 1);
    }
    assert NamesBelow(f, 0) == NamesBelow(s, 0);
  }

  lemma {:induction false} AppendToPath(s: State, t: Term)
    requires Inv(s) && s.pending == Some(t) && s.subpaths == [] && ValidTerm(t)
    ensures Inv(Append(s.(pending := None), [t]))
  {
    var paths := if s.paths == [] then [NoPath] else s.paths;
    NamesOfNoPath();
    PathGrows(paths, t);
    assert NamesBelow(s, 0) == TermNames(t);
    assert NamesBelow(Append(s.(pending := None), [t]), 0) == {};
  }

  lemma {:induction false} NamesOfNoPath()
    ensures NamesOfPaths([NoPath]) == {} == NamesOfPaths([])
  {
    assert [NoPath][..0] == [];
  }

  lemma {:induction false} PathGrows(paths: seq<Path>, t: Term)
    requires paths != [] && ValidPaths(paths) && ValidTerm(t)
    ensures ValidPaths(Extended(paths, [t])) && NamesOfPaths(Extended(paths, [t])) == NamesOfPaths(paths) + TermNames(t)
  {
    var last := |paths| - 1;
    NamesOfAppended(paths[last].terms, t);
    assert Extended(paths, [t])[..last] == paths[..last];
  }

  lemma {:induction false} FlushInv(s: State)
    requires Inv(s) && Flush(s).Some?
    ensures Inv(Flush(s).value) && Flush(s).value.pending == None && |Flush(s).value.subpaths| == |s.subpaths|
  {
    if s.pending.Some? {
      if s.subpaths != [] {
        var t, last := s.pending.value, s.subpaths[|s.subpaths| - 1];
        assert NamesBelow(s, |s.subpaths|) == TermNames(t);
        OpenGrows(last, t);
        AppendToSubpath(s, t, last.(terms := last.terms + [t]));
      } else {
        AppendToPath(s, s.pending.value);
      }
    }
  }

  lemma {:induction false} AddedKeys(ctx: Context, elements: map<string, Element>, name: string, l: Option<Label>, edge: bool)
    ensures AddElement(ctx, elements, name, l, edge).Keys == elements.Keys + NonEmpty(name)
  {
  }

  lemma {:induction false} ElementInv(ctx: Context, f: State, name: string, l: Option<Label>, text: Option<string>, direction: Option<Direction>)
    requires Inv(f) && f.pending == None && (l.Some? ==> ValidLabel(l.value))
    ensures var r := StepElement(ctx, f, name, l, text, direction); r.Some? ==> Inv(r.value)
  {
    var r := StepElement(ctx, f, name, l, text, direction);
    if r.Some? {
      AddedKeys(ctx, f.elements, name, l, direction.Some?);
      forall i | 0 <= i <= |f.subpaths| ensures NamesBelow(r.value, i) == NamesBelow(f, i) + NonEmpty(name) {
      }
    }
  }

  lemma {:induction false} StartInv(f: State, name: string, mode: Mode)
    requires Inv(f) && f.pending == None
    ensures Inv(Entered(f, name, mode))
  {
    var r := Entered(f, name, mode);
    forall i | 0 <= i <= |f.subpaths| ensures NamesBelow(r, i) == NamesBelow(f, i) {
    }
    assert forall i :: 0 <= i < |f.subpaths| ==> r.subpaths[i] == f.subpaths[i];
  }

  lemma {:induction false} EndInv(ctx: Context, f: State, text: Option<string>)
    requires Inv(f) && f.pending == None
    ensures var r := StepFlushed(ctx, f, OpEndSubpath(text)); r.Some? ==> Inv(r.value)
  {
    var r := StepFlushed(ctx, f, OpEndSubpath(text));
    if r.Some? {
      var n := |f.subpaths| - 1;
      var open := f.subpaths[n];
      var condition := r.value.pending.value.condition;
      assert r.value == f.(subpaths := f.subpaths[..n],
                           pending := Some(Subpath(open.name, open.mode, open.terms, condition, None, false)));
      EndedInv(f, r.value, condition);
    }
  }

  lemma {:induction false} EndedInv(f: State, r: State, condition: Option<PlanExpr>)
    requires Inv(f) && f.pending == None && f.subpaths != []
    requires var n := |f.subpaths| - 1;
             var open := f.subpaths[n];
             r == f.(subpaths := f.subpaths[..n],
                     pending := Some(Subpath(open.name, open.mode, open.terms, condition, None, false)))
    ensures Inv(r)
  {
    var n := |f.subpaths| - 1;
    assert NamesBelow(f, n + 1) == {} && OpenInv(f.subpaths[n], {});
    assert NamesBelow(r, n) == NamesBelow(f, n);
    forall i | 0 <= i < n ensures OpenInv(r.subpaths[i], NamesBelow(r, i + 1)) && NamesBelow(r, i) == NamesBelow(f, i) {
      assert r.subpaths[i] == f.subpaths[i] && OpenInv(f.subpaths[i], NamesBelow(f, i + 1));
    }
  }

  lemma {:induction false} PathInv(ctx: Context, f: State, op: Op)
    requires Inv(f) && f.pending == None && (op.OpPath? || op.OpFilter?)
    ensures var r := StepFlushed(ctx, f, op); r.Some? ==> Inv(r.value)
  {
    var r := StepFlushed(ctx, f, op);
    if r.Some? {
      forall i | 0 <= i <= |f.subpaths| ensures NamesBelow(r.value, i) == NamesBelow(f, i) {
      }
      assert op.OpPath? ==> r.value.paths[..|f.paths|] == f.paths;
      assert NamesOfPaths(r.value.paths) == NamesOfPaths(f.paths);
    }
  }

  lemma {:induction false} ChangePendingInv(s: State, t: Term)
    requires Inv(s) && s.pending.Some? && PendingIsSound(t) && TermNames(t) == TermNames(s.pending.value)
    ensures Inv(s.(pending := Some(t)))
  {
    forall i | 0 <= i <= |s.subpaths| ensures NamesBelow(s.(pending := Some(t)), i) == NamesBelow(s, i) {
    }
  }

  lemma {:induction false} StepInv(ctx: Context, s: State, op: Op)
    requires Inv(s) && ValidOp(op) && Step(ctx, s, op).Some?
    ensures Inv(Step(ctx, s, op).value)
  {
    if op.OpRepeats? || op.OpOptional? {
      ChangePendingInv(s, Step(ctx, s, op).value.pending.value);
    } else {
      FlushInv(s);
      var f := Flush(s).value;
      match op
      case OpVertex(name, l, text) => ElementInv(ctx, f, name, l, text, None);
      case OpEdge(name, l, text, direction) => ElementInv(ctx, f, name, l, text, Some(direction));
      case OpStartSubpath(name, mode) => StartInv(f, name, mode);
      case OpEndSubpath(text) => EndInv(ctx, f, text);
      case _ => PathInv(ctx, f, op);
    }
  }

  lemma {:induction false} RunInv(ctx: Context, s: State, ops: seq<Op>)
    requires Inv(s) && (forall i :: 0 <= i < |ops| ==> ValidOp(ops[i])) && Run(ctx, s, ops).Some?
    ensures Inv(Run(ctx, s, ops).value)
    decreases ops
  {
    if ops != [] {
      StepInv(ctx, s, ops[0]);
      RunInv(ctx, Step(ctx, s, ops[0]).value, ops[1..]);
    }
  }

  /** After any calls, a subpath about to end has kept exactly the names that collecting them
      from its terms gives, so its predicate is resolved over what its constructor checks. */
  lemma {:induction false} NamesAtEndOfSubpath(ctx: Context, ops: seq<Op>)
    requires forall i :: 0 <= i < |ops| ==> ValidOp(ops[i])
    requires var r := Run(ctx, Initial, ops); r.Some? && Flush(r.value).Some? && Flush(r.value).value.subpaths != []
    ensures var f := Flush(Run(ctx, Initial, ops).value).value;
            var open := f.subpaths[|f.subpaths| - 1];
            open.names == ElementNames(open.terms)
  {
    RunInv(ctx, Initial, ops);
    FlushInv(Run(ctx, Initial, ops).value);
  }

  // ----- The tables of a name, and the filter.

  predicate Named(op: Op, name: string) {
    name != "" && (op.OpVertex? || op.OpEdge?) && op.name == name
  }

  /** The first pattern of the name says whether it is a vertex or an edge; its tables are those
      that every pattern of the name and that kind can match. */
  ghost predicate MatchedByAll(ctx: Context, ops: seq<Op>, name: string, e: Element) {
    && (exists i :: 0 <= i < |ops| && Named(ops[i], name) && e.edge == ops[i].OpEdge?
          && forall j :: 0 <= j < i ==> !Named(ops[j], name))
    && (forall t :: t in e.tables <==>
          forall i :: 0 <= i < |ops| && Named(ops[i], name) && ops[i].OpEdge? == e.edge ==>
            t in ctx.matching(ops[i].labelExpr, e.edge))
  }

  ghost predicate TablesKnown(ctx: Context, ops: seq<Op>, elements: map<string, Element>) {
    && (forall name :: name in elements <==> exists i :: 0 <= i < |ops| && Named(ops[i], name))
    && (forall name :: name in elements ==> MatchedByAll(ctx, ops, name, elements[name]))
  }

  lemma {:induction false} FlushKeeps(s: State)
    requires Flush(s).Some?
    ensures Flush(s).value.elements == s.elements && Flush(s).value.filter == s.filter
  {
  }

  lemma {:induction false} StepElements(ctx: Context, s: State, op: Op)
    requires Step(ctx, s, op).Some?
    ensures Step(ctx, s, op).value.elements ==
            if op.OpVertex? || op.OpEdge? then AddElement(ctx, s.elements, op.name, op.labelExpr, op.OpEdge?) else s.elements
    ensures op.OpFilter? ==>
              s.filter.None? && Step(ctx, s, op).value.filter == ctx.resolve(op.condition, s.elements.Keys, s.elements)
              && Step(ctx, s, op).value.filter.Some?
    ensures !op.OpFilter? ==> Step(ctx, s, op).value.filter == s.filter
  {
    if !op.OpRepeats? && !op.OpOptional? { FlushKeeps(s); }
  }

  lemma {:induction false} RunLast(ctx: Context, ops: seq<Op>) returns (before: State)
    requires ops != [] && Run(ctx, Initial, ops).Some?
    ensures Run(ctx, Initial, ops[..|ops| - 1]) == Some(before)
    ensures Step(ctx, before, ops[|ops| - 1]) == Run(ctx, Initial, ops)
  {
    var earlier, op := ops[..|ops| - 1], ops[|ops| - 1];
    assert earlier + [op] == ops;
    RunConcat(ctx, Initial, earlier, [op]);
    before := Run(ctx, Initial, earlier).value;
    RunOne(ctx, before, op);
  }

  lemma {:induction false} OtherName(ctx: Context, earlier: seq<Op>, op: Op, name: string, e: Element)
    requires !Named(op, name)
    ensures (exists i :: 0 <= i < |earlier + [op]| && Named((earlier + [op])[i], name)) <==>
            exists i :: 0 <= i < |earlier| && Named(earlier[i], name)
    ensures MatchedByAll(ctx, earlier, name, e) ==> MatchedByAll(ctx, earlier + [op], name, e)
  {
    var ops := earlier + [op];
    assert forall i :: 0 <= i < |earlier| ==> ops[i] == earlier[i];
    if i :| 0 <= i < |earlier| && Named(earlier[i], name) { assert Named(ops[i], name); }
    if MatchedByAll(ctx, earlier, name, e) {
      var i :| 0 <= i < |earlier| && Named(earlier[i], name) && e.edge == earlier[i].OpEdge?
               && forall j :: 0 <= j < i ==> !Named(earlier[j], name);
      assert Named(ops[i], name) && e.edge == ops[i].OpEdge?;
      forall t ensures t in e.tables <==>
        forall i :: 0 <= i < |ops| && Named(ops[i], name) && ops[i].OpEdge? == e.edge ==> t in ctx.matching(ops[i].labelExpr, e.edge)
      {
        assert (forall i :: 0 <= i < |ops| && Named(ops[i], name) && ops[i].OpEdge? == e.edge ==> t in ctx.matching(ops[i].labelExpr, e.edge))
          <==> forall i :: 0 <= i < |earlier| && Named(earlier[i], name) && earlier[i].OpEdge? == e.edge ==>
                 t in ctx.matching(earlier[i].labelExpr, e.edge);
      }
    }
  }

  lemma {:induction false} FirstOfName(ctx: Context, earlier: seq<Op>, op: Op, name: string)
    requires Named(op, name) && forall i :: 0 <= i < |earlier| ==> !Named(earlier[i], name)
    ensures MatchedByAll(ctx, earlier + [op], name, Element(op.OpEdge?, ctx.matching(op.labelExpr, op.OpEdge?)))
  {
    var ops := earlier + [op];
    assert ops[|earlier|] == op && forall i :: 0 <= i < |earlier| ==> ops[i] == earlier[i];
    assert Named(ops[|earlier|], name);
  }

  lemma {:induction false} AnotherOfName(ctx: Context, earlier: seq<Op>, op: Op, name: string, e: Element)
    requires Named(op, name) && MatchedByAll(ctx, earlier, name, e)
    ensures MatchedByAll(ctx, earlier + [op], name,
              if e.edge == op.OpEdge? then Element(e.edge, Intersect(e.tables, ctx.matching(op.labelExpr, e.edge))) else e)
  {
    var ops := earlier + [op];
    var f := if e.edge == op.OpEdge? then Element(e.edge, Intersect(e.tables, ctx.matching(op.labelExpr, e.edge))) else e;
    assert ops[|earlier|] == op && forall i :: 0 <= i < |earlier| ==> ops[i] == earlier[i];
    var i :| 0 <= i < |earlier| && Named(earlier[i], name) && e.edge == earlier[i].OpEdge?
             && forall j :: 0 <= j < i ==> !Named(earlier[j], name);
    assert Named(ops[i], name) && f.edge == ops[i].OpEdge?;
    forall t ensures t in f.tables <==>
      forall i :: 0 <= i < |ops| && Named(ops[i], name) && ops[i].OpEdge? == f.edge ==> t in ctx.matching(ops[i].labelExpr, f.edge)
    {
      assert (forall i :: 0 <= i < |ops| && Named(ops[i], name) && ops[i].OpEdge? == f.edge ==> t in ctx.matching(ops[i].labelExpr, f.edge))
        <==> (op.OpEdge? == f.edge ==> t in ctx.matching(op.labelExpr, f.edge))
             && forall i :: 0 <= i < |earlier| && Named(earlier[i], name) && earlier[i].OpEdge? == f.edge ==>
                  t in ctx.matching(earlier[i].labelExpr, f.edge);
    }
  }

  lemma {:induction false} TablesAfter(ctx: Context, earlier: seq<Op>, op: Op, elements: map<string, Element>)
    requires TablesKnown(ctx, earlier, elements)
    ensures TablesKnown(ctx, earlier + [op],
              if op.OpVertex? || op.OpEdge? then AddElement(ctx, elements, op.name, op.labelExpr, op.OpEdge?) else elements)
  {
    var after := if op.OpVertex? || op.OpEdge? then AddElement(ctx, elements, op.name, op.labelExpr, op.OpEdge?) else elements;
    forall name
      ensures name in after <==> exists i :: 0 <= i < |earlier + [op]| && Named((earlier + [op])[i], name)
      ensures name in after ==> MatchedByAll(ctx, earlier + [op], name, after[name])
    {
      if Named(op, name) {
        assert Named((earlier + [op])[|earlier|], name);
        if name in elements {
          AnotherOfName(ctx, earlier, op, name, elements[name]);
        } else {
          FirstOfName(ctx, earlier, op, name);
        }
      } else {
        assert name in after <==> name in elements;
        OtherName(ctx, earlier, op, name, if name in elements then elements[name] else Element(false, []));
      }
    }
  }

  /** After any calls a name's tables are those that all its patterns can match. */
  lemma {:induction false} TablesOfNames(ctx: Context, ops: seq<Op>)
    requires Run(ctx, Initial, ops).Some?
    ensures TablesKnown(ctx, ops, Run(ctx, Initial, ops).value.elements)
  {
    if ops != [] {
      var earlier, op := ops[..|ops| - 1], ops[|ops| - 1];
      var before := RunLast(ctx, ops);
      assert earlier + [op] == ops;
      TablesOfNames(ctx, earlier);
      StepElements(ctx, before, op);
      TablesAfter(ctx, earlier, op, before.elements);
    }
  }

  // ----- Which calls are accepted where.

  lemma {:induction false} PrefixRuns(ctx: Context, ops: seq<Op>, i: nat)
    requires i <= |ops| && Run(ctx, Initial, ops).Some?
    ensures Run(ctx, Initial, ops[..i]).Some?
  {
    assert ops[..i] + ops[i..] == ops;
    RunConcat(ctx, Initial, ops[..i], ops[i..]);
  }

  /** How many subpaths the calls leave open. */
  function Depth(ops: seq<Op>): int {
    if ops == [] then 0
    else
      var last := ops[|ops| - 1];
      Depth(ops[..|ops| - 1]) + if last.OpStartSubpath? then 1 else if last.OpEndSubpath? then -1 else 0
  }

  lemma {:induction false} StepDepth(ctx: Context, s: State, op: Op)
    requires Step(ctx, s, op).Some?
    ensures |Step(ctx, s, op).value.subpaths|
         == |s.subpaths| + if op.OpStartSubpath? then 1 else if op.OpEndSubpath? then -1 else 0
    ensures op.OpPath? ==> s.subpaths == []
  {
  }

  lemma {:induction false} OpenAfter(ctx: Context, ops: seq<Op>)
    requires Run(ctx, Initial, ops).Some?
    ensures |Run(ctx, Initial, ops).value.subpaths| == Depth(ops)
  {
    if ops != [] {
      var before := RunLast(ctx, ops);
      OpenAfter(ctx, ops[..|ops| - 1]);
      StepDepth(ctx, before, ops[|ops| - 1]);
    }
  }

  /** Subpaths nest properly: no call ends more than are open, paths start outside all of them, and
      none is open at the end. */
  lemma {:induction false} SubpathsNest(ctx: Context, ops: seq<Op>, i: nat)
    requires Run(ctx, Initial, ops).Some? && i <= |ops|
    ensures Depth(ops[..i]) >= 0
    ensures i < |ops| && ops[i].OpPath? ==> Depth(ops[..i]) == 0
    ensures Finish(Run(ctx, Initial, ops).value).Some? ==> Depth(ops) == 0
  {
    PrefixRuns(ctx, ops, i);
    OpenAfter(ctx, ops[..i]);
    OpenAfter(ctx, ops);
    if i < |ops| {
      PrefixRuns(ctx, ops, i + 1);
      assert ops[..i + 1][..i] == ops[..i];
      var before := RunLast(ctx, ops[..i + 1]);
      StepDepth(ctx, before, ops[i]);
    }
  }

  /** The last call but for those that change what an earlier one added. */
  function LastCall(ops: seq<Op>): Option<Op> {
    if ops == [] then None
    else
      var last := ops[|ops| - 1];
      if last.OpRepeats? || last.OpOptional? then LastCall(ops[..|ops| - 1]) else Some(last)
  }

  ghost predicate PendingFits(pending: Option<Term>, last: Option<Op>) {
    match last
    case Some(OpVertex(_, _, _)) => pending.Some? && pending.value.Vertex?
    case Some(OpEdge(_, _, _, _)) => pending.Some? && pending.value.Edge?
    case Some(OpEndSubpath(_)) => pending.Some? && pending.value.Subpath?
    case _ => pending == None
  }

  lemma {:induction false} PendingAfter(ctx: Context, ops: seq<Op>)
    requires Run(ctx, Initial, ops).Some?
    ensures PendingFits(Run(ctx, Initial, ops).value.pending, LastCall(ops))
  {
    if ops != [] {
      var before := RunLast(ctx, ops);
      PendingAfter(ctx, ops[..|ops| - 1]);
    }
  }

  /** Only an edge or an ended subpath can be repeated, and only an ended subpath be made optional. */
  lemma {:induction false} ModifiersFollow(ctx: Context, ops: seq<Op>, i: nat)
    requires Run(ctx, Initial, ops).Some? && i < |ops|
    ensures ops[i].OpRepeats? ==> LastCall(ops[..i]).Some? && (LastCall(ops[..i]).value.OpEdge? || LastCall(ops[..i]).value.OpEndSubpath?)
    ensures ops[i].OpOptional? ==> LastCall(ops[..i]).Some? && LastCall(ops[..i]).value.OpEndSubpath?
  {
    PrefixRuns(ctx, ops, i + 1);
    assert ops[..i + 1][..i] == ops[..i];
    var before := RunLast(ctx, ops[..i + 1]);
    PendingAfter(ctx, ops[..i]);
  }

  /** The filter is what the one filter call's text resolves to, over the elements known then. */
  lemma {:induction false} FilterKept(ctx: Context, ops: seq<Op>)
    requires Run(ctx, Initial, ops).Some?
    ensures Run(ctx, Initial, ops).value.filter.Some? <==> exists i :: 0 <= i < |ops| && ops[i].OpFilter?
    ensures forall i, j :: 0 <= i < j < |ops| ==> !(ops[i].OpFilter? && ops[j].OpFilter?)
    ensures forall i :: 0 <= i < |ops| && ops[i].OpFilter? ==>
              var before := Run(ctx, Initial, ops[..i]);
              before.Some? && Run(ctx, Initial, ops).value.filter
                              == ctx.resolve(ops[i].condition, before.value.elements.Keys, before.value.elements)
  {
    if ops != [] {
      var n := |ops| - 1;
      var before := RunLast(ctx, ops);
      FilterKept(ctx, ops[..n]);
      StepElements(ctx, before, ops[n]);
      assert forall i :: 0 <= i < n ==> ops[..n][i] == ops[i] && ops[..n][..i] == ops[..i];
    }
  }

  /** Whatever is finished satisfies every constructor, and the known element names are those of
      the patterns. */
  lemma {:induction false} FinishedIsValid(ctx: Context, ops: seq<Op>)
    requires forall i :: 0 <= i < |ops| ==> ValidOp(ops[i])
    requires var r := Run(ctx, Initial, ops); r.Some? && Finish(r.value).Some?
    ensures var s := Run(ctx, Initial, ops).value;
            ValidPaths(Finish(s).value) && s.elements.Keys == NamesOfPaths(Finish(s).value)
  {
    RunInv(ctx, Initial, ops);
    FlushInv(Run(ctx, Initial, ops).value);
  }

  // ----- The builder as an object.

  class GraphMatchBuilder {
    var paths: seq<Path>
    var subpaths: seq<OpenSubpath>
    var pending: Option<Term>
    var elements: map<string, Element>
    var pathNames: set<string>
    var filter: Option<PlanExpr>
    const ctx: Context

    function View(): State
      reads this
    {
      State(paths, subpaths, pending, elements, pathNames, filter)
    }

    constructor (ctx: Context)
      ensures View() == Initial && this.ctx == ctx
    {
      paths, subpaths, pending, elements, pathNames, filter := [], [], None, map[], {}, None;
      this.ctx := ctx;
    }

    method FlushPending() returns (ok: bool)
      modifies this
      ensures ok <==> Flush(old(View())).Some?
      ensures ok ==> Some(View()) == Flush(old(View()))
    {
      if pending.None? { return true; }
      var term := pending.value;
      pending := None;
      if !Accepts(term) { return false; }
      if subpaths != [] {
        var n := |subpaths| - 1;
        subpaths := subpaths[n := subpaths[n].(terms := subpaths[n].terms + [term])];
        return true;
      }
      if paths == [] { paths := [NoPath]; }
      var n := |paths| - 1;
      paths := paths[n := paths[n].(terms := paths[n].terms + [term])];
      return true;
    }

    method StartPath(name: string, selector: Selector, mode: Mode) returns (ok: bool)
      modifies this
      ensures ok <==> Step(ctx, old(View()), OpPath(name, selector, mode)).Some?
      ensures ok ==> Some(View()) == Step(ctx, old(View()), OpPath(name, selector, mode))
    {
      ok := FlushPending();
      if !ok { return; }
      if subpaths != [] { return false; }
      if name != "" { pathNames := pathNames + {name}; }
      paths := paths + [Path(name, selector, mode, [])];
      assert NonEmpty("") == {} && pathNames + {} == pathNames;
    }

    method AddElementName(name: string, l: Option<Label>, edge: bool)
      modifies this`elements, this`subpaths
      ensures elements == AddElement(ctx, old(elements), name, l, edge)
      ensures subpaths == WithNames(old(subpaths), NonEmpty(name))
    {
      if name == "" {
        assert forall i :: 0 <= i < |subpaths| ==> subpaths[i].names + {} == subpaths[i].names;
        return;
      }
      var tables := ctx.matching(l, edge);
      if name !in elements {
        elements := elements[name := Element(edge, tables)];
      } else if elements[name].edge == edge {
        elements := elements[name := Element(edge, Intersect(elements[name].tables, tables))];
      }
      for i := 0 to |subpaths|
        invariant |subpaths| == |old(subpaths)|
        invariant forall j :: 0 <= j < i ==> subpaths[j] == old(subpaths[j]).(names := old(subpaths[j]).names + {name})
        invariant forall j :: i <= j < |subpaths| ==> subpaths[j] == old(subpaths[j])
        invariant elements == AddElement(ctx, old(elements), name, l, edge)
      {
        subpaths := subpaths[i := subpaths[i].(names := subpaths[i].names + {name})];
      }
    }

    method AddVertex(name: string, l: Option<Label>, text: Option<string>) returns (ok: bool)
      modifies this
      ensures ok <==> Step(ctx, old(View()), OpVertex(name, l, text)).Some?
      ensures ok ==> Some(View()) == Step(ctx, old(View()), OpVertex(name, l, text))
    {
      ok := FlushPending();
      if !ok { return; }
      AddElementName(name, l, false);
      var condition := Resolve(ctx, text, {name}, elements);
      if condition.None? { return false; }
      pending := Some(Vertex(name, l, condition.value));
    }

    method AddEdge(name: string, l: Option<Label>, text: Option<string>, direction: Direction) returns (ok: bool)
      modifies this
      ensures ok <==> Step(ctx, old(View()), OpEdge(name, l, text, direction)).Some?
      ensures ok ==> Some(View()) == Step(ctx, old(View()), OpEdge(name, l, text, direction))
    {
      ok := FlushPending();
      if !ok { return; }
      AddElementName(name, l, true);
      var condition := Resolve(ctx, text, {name}, elements);
      if condition.None? { return false; }
      pending := Some(Edge(name, l, condition.value, direction, None));
    }

    method Repeats(min: int, max: Option<int>) returns (ok: bool)
      modifies this`pending
      ensures ok <==> Step(ctx, old(View()), OpRepeats(min, max)).Some?
      ensures ok ==> Some(View()) == Step(ctx, old(View()), OpRepeats(min, max))
      ensures !ok ==> View() == old(View())
    {
      if pending.None? || pending.value.Vertex? { return false; }
      pending := Some(pending.value.(repetition := Some(Repetition(min, max))));
      return true;
    }

    method Optional() returns (ok: bool)
      modifies this`pending
      ensures ok <==> Step(ctx, old(View()), OpOptional).Some?
      ensures ok ==> Some(View()) == Step(ctx, old(View()), OpOptional)
      ensures !ok ==> View() == old(View())
    {
      if pending.None? || !pending.value.Subpath? { return false; }
      pending := Some(pending.value.(optional := true));
      return true;
    }

    method StartSubpath(name: string, mode: Mode) returns (ok: bool)
      modifies this
      ensures ok <==> Step(ctx, old(View()), OpStartSubpath(name, mode)).Some?
      ensures ok ==> Some(View()) == Step(ctx, old(View()), OpStartSubpath(name, mode))
    {
      ok := FlushPending();
      if !ok { return; }
      assert NonEmpty("") == {} && pathNames + {} == pathNames;
      if name != "" { pathNames := pathNames + {name}; }
      subpaths := subpaths + [OpenSubpath(name, mode, [], {})];
    }

    method EndSubpath(text: Option<string>) returns (ok: bool)
      modifies this
      ensures ok <==> Step(ctx, old(View()), OpEndSubpath(text)).Some?
      ensures ok ==> Some(View()) == Step(ctx, old(View()), OpEndSubpath(text))
    {
      ok := FlushPending();
      if !ok { return; }
      if subpaths == [] { return false; }
      var n := |subpaths| - 1;
      var subpath := subpaths[n];
      subpaths := subpaths[..n];
      var condition := Resolve(ctx, text, subpath.names, elements);
      if condition.None? { return false; }
      pending := Some(Subpath(subpath.name, subpath.mode, subpath.terms, condition.value, None, false));
    }

    method Filter(text: string) returns (ok: bool)
      modifies this
      ensures ok <==> Step(ctx, old(View()), OpFilter(text)).Some?
      ensures ok ==> Some(View()) == Step(ctx, old(View()), OpFilter(text))
    {
      ok := FlushPending();
      if !ok { return; }
      if filter.Some? { return false; }
      filter := ctx.resolve(text, elements.Keys, elements);
      ok := filter.Some?;
    }
  }
}
