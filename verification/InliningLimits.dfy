/** Where inlining stops preserving meaning, and what the resolver's checks buy. */
module InliningLimits {
  import opened Wrappers
  import opened Values
  import opened Exprs
  import opened Resolver
  import opened Inlining
  import opened InPredicate
  import opened InliningMeaning

  /** A resolved expression depends on a scope only through the names it looks up. */
  lemma {:induction false} ScopeIrrelevant(
      cat: Catalog, e: UExpr, p: Scope, q: Scope, inlined: bool, guard: set<string>)
    requires p.qualified == q.qualified
    requires forall x :: x in UsedColumns(e) ==> x in p.columns && x in q.columns && p.columns[x] == q.columns[x]
    ensures Resolve(cat, e, p, inlined, guard) == Resolve(cat, e, q, inlined, guard)
    decreases e
  {
    match e
    case Field(input, _) => ScopeIrrelevant(cat, input, p, q, inlined, guard);
    case UCast(_, _, input) => ScopeIrrelevant(cat, input, p, q, inlined, guard);
    case URow(_, inputs) => ScopeIrrelevantFrom(cat, inputs, 0, p, q, inlined, guard);
    case UCall(name, inputs) =>
      if |inputs| > 0 { ScopeIrrelevant(cat, inputs[0], p, q, inlined, guard); }
      ScopeIrrelevantFrom(cat, inputs, 0, p, q, inlined, guard);
    case _ =>
  }

  lemma {:induction false} ScopeIrrelevantFrom(
      cat: Catalog, es: seq<UExpr>, i: nat, p: Scope, q: Scope, inlined: bool, guard: set<string>)
    requires i <= |es| && p.qualified == q.qualified
    requires forall j, x :: 0 <= j < |es| && x in UsedColumns(es[j]) ==>
               x in p.columns && x in q.columns && p.columns[x] == q.columns[x]
    ensures ResolveFrom(cat, es, i, p, inlined, guard) == ResolveFrom(cat, es, i, q, inlined, guard)
    decreases es, |es| - i
  {
    if i < |es| {
      ScopeIrrelevant(cat, es[i], p, q, inlined, guard);
      ScopeIrrelevantFrom(cat, es, i + 1, p, q, inlined, guard);
    }
  }

  /** The parameters but one, each standing for itself. */
  function Others(names: seq<string>, args: seq<Expr>, x: string): (s: map<string, Expr>)
    requires |names| == |args|
    ensures x !in s && s.Keys == (set y | y in names) - {x}
  {
    var params := Bind(names, Params(names, args));
    map y | y in params && y != x :: params[y]
  }

  lemma {:induction false} OthersStandForThemselves(names: seq<string>, args: seq<Expr>, x: string)
    requires |names| == |args| && Distinct(names)
    ensures forall y :: y in Others(names, args, x) ==>
              var p := Others(names, args, x)[y]; p.InputRef? && p.name == y
    ensures SubqueryFree(Others(names, args, x))
    ensures WellBoundScope(Scope(Others(names, args, x), map[]), Others(names, args, x))
  {
    var s := Others(names, args, x);
    forall y | y in s ensures s[y].InputRef? && s[y].name == y {
      var i :| 0 <= i < |names| && names[i] == y;
      BindAt(names, Params(names, args), i);
    }
  }

  lemma {:induction false} BoundByOthers(
      cat: Catalog, body: UExpr, names: seq<string>, args: seq<Expr>, guard: set<string>, b: Expr, x: string)
    requires |names| == |args| && Distinct(names) && x in names
    requires x !in UsedColumns(body) && UsedColumns(body) <= set y | y in names
    requires Resolve(cat, body, Scope(Bind(names, Params(names, args)), map[]), true, guard) == Ok(b)
    ensures WellBound(b, Others(names, args, x))
  {
    var s := Others(names, args, x);
    OthersStandForThemselves(names, args, x);
    ScopeIrrelevant(cat, body, Scope(Bind(names, Params(names, args)), map[]), Scope(s, map[]), true, guard);
    PlainCommutes(cat, body, Scope(s, map[]), s, guard);
    ResolveCommutes(cat, body, Scope(s, map[]), s, guard);
  }

  /** The outcome of a body resolved over its parameters ignores parameters it does not use. */
  lemma {:induction false} UnusedParameterUnseen(
      engine: Engine, cat: Catalog, body: UExpr, names: seq<string>, args: seq<Expr>, guard: set<string>,
      b: Expr, x: string, env: Env, other: Outcome)
    requires |names| == |args| && Distinct(names) && x in names
    requires x !in UsedColumns(body) && UsedColumns(body) <= set y | y in names
    requires Resolve(cat, body, Scope(Bind(names, Params(names, args)), map[]), true, guard) == Ok(b)
    ensures Eval(engine, b, env[x := other]) == Eval(engine, b, env)
  {
    var s := Others(names, args, x);
    OthersStandForThemselves(names, args, x);
    BoundByOthers(cat, body, names, args, guard, b, x);
    EvalSubst(engine, b, s, env, env);
    EvalSubst(engine, b, s, env, env[x := other]);
  }

  lemma {:induction false} UsedParameterShows(
      engine: Engine, cat: Catalog, body: UExpr, names: seq<string>, args: seq<Expr>, guard: set<string>,
      b: Expr, x: string, row: Env)
    requires |names| == |args| && Distinct(names) && x in names
    requires x in UsedColumns(body) && Strict(b) && Lookup(row, x).Err?
    requires Resolve(cat, body, Scope(Bind(names, Params(names, args)), map[]), true, guard) == Ok(b)
    ensures Eval(engine, b, row).Err?
  {
    var params := Scope(Bind(names, Params(names, args)), map[]);
    var i :| 0 <= i < |names| && names[i] == x;
    BindAt(names, Params(names, args), i);
    UsedIsContained(cat, body, params, true, guard, x);
    ContainedError(engine, b, params.columns[x], row);
  }

  /** Why every argument must be used: over a strict body that can yield a value, an argument's
      error always shows exactly when the body uses the argument. */
  lemma {:induction false} ArgumentErrorsShow(
      engine: Engine, cat: Catalog, body: UExpr, names: seq<string>, args: seq<Expr>, guard: set<string>,
      b: Expr, x: string, env: Env)
    requires |names| == |args| && Distinct(names) && x in names
    requires UsedColumns(body) <= set y | y in names
    requires Resolve(cat, body, Scope(Bind(names, Params(names, args)), map[]), true, guard) == Ok(b)
    requires Strict(b) && Eval(engine, b, env).Val?
    ensures (forall row: Env :: Lookup(row, x).Err? ==> Eval(engine, b, row).Err?) <==> x in UsedColumns(body)
  {
    if x in UsedColumns(body) {
      UsedParameterAlwaysShows(engine, cat, body, names, args, guard, b, x);
    } else {
      UnusedParameterUnseen(engine, cat, body, names, args, guard, b, x, env, Err);
      assert Lookup(env[x := Err], x).Err?;
    }
  }

  lemma {:induction false} UsedParameterAlwaysShows(
      engine: Engine, cat: Catalog, body: UExpr, names: seq<string>, args: seq<Expr>, guard: set<string>, b: Expr, x: string)
    requires |names| == |args| && Distinct(names) && x in names
    requires x in UsedColumns(body) && Strict(b)
    requires Resolve(cat, body, Scope(Bind(names, Params(names, args)), map[]), true, guard) == Ok(b)
    ensures forall row: Env :: Lookup(row, x).Err? ==> Eval(engine, b, row).Err?
  {
    forall row: Env | Lookup(row, x).Err? ensures Eval(engine, b, row).Err? {
      UsedParameterShows(engine, cat, body, names, args, guard, b, x, row);
    }
  }

  lemma {:induction false} CastKeepsSubquery(inputs: seq<Expr>, types: seq<Type>, i: nat)
    requires |inputs| == |types| && i < |inputs| && ContainsSubquery(inputs[i])
    ensures ContainsSubquery(CastArguments(inputs, types)[i])
  {
    var a := CastArguments(inputs, types)[i];
    if a != inputs[i] { assert ContainsSubquery(a.inputs[0]); }
  }

  /** A call with a subquery in an argument is never inlined: the check meant for the body sees
      the argument too. */
  lemma {:induction false} SubqueryArgumentRejected(
      cat: Catalog, e: UExpr, name: string, inputs: seq<Expr>, guard: set<string>, i: nat)
    requires i < |inputs| && ContainsSubquery(inputs[i])
    requires cat.sqlFunction(name, Types(inputs)).Some?
    ensures ResolveSqlFunction(cat, e, name, inputs, true, guard).Fail?
  {
    if ResolveSqlFunction(cat, e, name, inputs, true, guard).Ok? {
      var f := cat.sqlFunction(name, Types(inputs)).value;
      var args := CastArguments(inputs, f.argumentTypes);
      CastKeepsSubquery(inputs, f.argumentTypes, i);
      ArgumentsSubqueryFree(cat, f, args, guard + {name});
    }
  }

  // ----- The conditions of the theorem are needed.

  /** IF(a, a, b) called with true and a failing second argument: the call fails, the inlined
      form never evaluates the argument; under TRY one gives NULL and the other true. */
  lemma {:induction false} LazyBodySkipsArgument(engine: Engine)
    ensures var a, b := InputRef(Boolean, "a"), InputRef(Boolean, "b");
            var body := Special(Boolean, If, [a, a, b]);
            var args := [Constant(Boolean, BoolV(true)), InputRef(Boolean, "x")];
            var call := SqlCall(Boolean, ["a", "b"], args, body, false);
            var inlined := Subst(body, Bind(["a", "b"], args));
            var env: Env := map["x" := Err];
            && Eval(engine, call, env) == Err
            && Eval(engine, inlined, env) == Val(BoolV(true))
            && Eval(engine, Special(Boolean, Try, [call]), env) == Val(NullV(KBoolean))
            && Eval(engine, Special(Boolean, Try, [inlined]), env) == Val(BoolV(true))
  {
    var a, b := InputRef(Boolean, "a"), InputRef(Boolean, "b");
    var body := Special(Boolean, If, [a, a, b]);
    var args := [Constant(Boolean, BoolV(true)), InputRef(Boolean, "x")];
    var call := SqlCall(Boolean, ["a", "b"], args, body, false);
    var env: Env := map["x" := Err];
    assert EvalAll(engine, args, env)[1] == Err;
    LazyBodyInlined(args);
    var inlined := Subst(body, Bind(["a", "b"], args));
    assert EvalAll(engine, inlined.inputs, env)[0] == Val(BoolV(true));
    assert EvalAll(engine, [call], env) == [Err];
    assert EvalAll(engine, [inlined], env) == [Val(BoolV(true))];
  }

  lemma {:induction false} LazyBodyInlined(args: seq<Expr>)
    requires |args| == 2
    ensures var a, b := InputRef(Boolean, "a"), InputRef(Boolean, "b");
            Subst(Special(Boolean, If, [a, a, b]), Bind(["a", "b"], args)) == Special(Boolean, If, [args[0], args[0], args[1]])
  {
    var a, b := InputRef(Boolean, "a"), InputRef(Boolean, "b");
    BindAt(["a", "b"], args, 0);
    BindAt(["a", "b"], args, 1);
    assert SubstAll([a, a, b], Bind(["a", "b"], args)) == [args[0], args[0], args[1]];
    assert Subst(Special(Boolean, If, [a, a, b]), Bind(["a", "b"], args)).inputs == SubstAll([a, a, b], Bind(["a", "b"], args));
  }

  /** RETURNS NULL ON NULL INPUT with two arguments, NULL and failing: the call fails, but the
      guard's OR is already true and the inlined form gives NULL. */
  lemma {:induction false} NullGuardSkipsArgument(engine: Engine, body: Expr)
    requires body.ty == Boolean
    ensures var args := [Constant(Boolean, NullV(KBoolean)), InputRef(Boolean, "x")];
            var env: Env := map["x" := Err];
            && Eval(engine, SqlCall(Boolean, ["a", "b"], args, body, true), env) == Err
            && Eval(engine, NullGuard(body, args), env) == Val(NullV(KBoolean))
  {
    var args := [Constant(Boolean, NullV(KBoolean)), InputRef(Boolean, "x")];
    var env: Env := map["x" := Err];
    assert EvalAll(engine, args, env)[1] == Err;
    var tests := NullTests(args);
    var os := EvalAll(engine, tests, env);
    NullTestMeans(engine, args[0], env);
    assert os[0] == Val(BoolV(true));
    var g := NullGuard(body, args);
    assert Eval(engine, g.inputs[0], env) == AndOr(false, os);
    assert EvalAll(engine, g.inputs, env)[0] == Val(BoolV(true));
  }

  /** What the inputs below need of a catalog: TINYINT widens to INTEGER, and f is the function. */
  ghost predicate WidensAndHas(cat: Catalog, f: SqlFunction, argument: Type) {
    && cat.superType(Tinyint, Integer) == Some(Integer) && cat.superType(Integer, Integer) == Some(Integer)
    && cat.sqlFunction("f", [argument]) == Some(f) && "f" in cat.sqlNames
  }

  function Row300(): (r: Scope)
    ensures r.columns.Keys == {"x"} && r.columns["x"] == InputRef(Integer, "x") && r.qualified == map[]
  {
    Scope(map["x" := InputRef(Integer, "x")], map[])
  }

  const IN_300 := [Literal(Integer, IntV(KInteger, 300)), Literal(Integer, IntV(KInteger, 400))]

  lemma {:induction false} Literals300()
    ensures AllLiterals(IN_300) && Constants(IN_300) == Ok(IntegerLiterals([300, 400]))
  {
    Fits300();
    IntegerLiterals300();
    assert Constants(IN_300).value == IntegerLiterals([300, 400]);
  }

  lemma {:induction false} Fits300()
    ensures forall i :: 0 <= i < |IN_300| ==> HasType(IN_300[i].value, IN_300[i].ty)
  {
    Pow2Monotone(9, 31);
    assert Pow2(9) == 512;
  }

  lemma {:induction false} IntegerLiterals300()
    ensures IntegerLiterals([300, 400]) == [Constant(Integer, IntV(KInteger, 300)), Constant(Integer, IntV(KInteger, 400))]
  {
    assert [300, 400][1..] == [400];
    assert IntegerLiterals([400]) == [Constant(Integer, IntV(KInteger, 400))];
  }

  lemma {:induction false} ResolvesIn(cat: Catalog, value: UExpr, scope: Scope, inlined: bool, guard: set<string>, v: Expr)
    requires Resolve(cat, value, scope, inlined, guard) == Ok(v)
    ensures Resolve(cat, UCall("in", [value] + IN_300), scope, inlined, guard)
         == ResolveConstantIn(Some(cat.superType), v, IntegerLiterals([300, 400]))
  {
    Literals300();
    assert ([value] + IN_300)[1..] == IN_300;
  }

  /** IN over a TINYINT value that is no cast: it is cast to INTEGER. */
  lemma {:induction false} TinyintForm(superType: (Type, Type) -> Option<Type>, v: Expr)
    requires superType(Tinyint, Integer) == Some(Integer) && superType(Integer, Integer) == Some(Integer)
    requires v.ty == Tinyint && !IsCast(v) && !IsSubquery(v)
    ensures ResolveConstantIn(Some(superType), v, IntegerLiterals([300, 400])) ==
            Ok(Special(Boolean, InArray, [CastTo(Integer, v), Constant(Array(Integer), ArrayV(IntegerValues([300, 400])))]))
  {
    CommonInteger(superType, IntegerLiterals([300, 400]));
    IntegerElements([300, 400]);
    assert IntegerValues([300, 400]) != [];
  }

  lemma {:induction false} FailingOperand(engine: Engine, v: Expr, stored: Expr, env: Env)
    requires Eval(engine, v, env).Err?
    ensures Eval(engine, Special(Boolean, InArray, [CastTo(Integer, v), stored]), env) == Err
  {
    CastOutcome(engine, v, Integer, env);
    assert EvalAll(engine, [CastTo(Integer, v), stored], env)[0].Err?;
  }

  /** A call of f with one argument of the declared type resolves to its body, resolved and finished. */
  lemma {:induction false} ResolvesCall(
      cat: Catalog, f: SqlFunction, input: UExpr, x: Expr, scope: Scope, inlined: bool)
    requires WidensAndHas(cat, f, x.ty) && |f.argumentNames| == 1 && f.argumentTypes == [x.ty]
    requires Resolve(cat, input, scope, inlined, {}) == Ok(x) && UsedColumns(f.body) == (set n | n in f.argumentNames)
    requires var b := Resolve(cat, f.body, BodyScope(f, [x], inlined), inlined, {"f"});
             b.Ok? && !ContainsSubquery(b.value) && Equivalent(b.value.ty, f.returnType) && !f.nullOnNull
    ensures var b := Resolve(cat, f.body, BodyScope(f, [x], inlined), inlined, {"f"}).value;
            Resolve(cat, UCall("f", [input]), scope, inlined, {}) ==
            Ok(if inlined then b else SqlCall(b.ty, f.argumentNames, [x], b, false))
  {
    var e := UCall("f", [input]);
    EquivalentRefl(x.ty);
    assert ResolveFrom(cat, e.inputs, 1, scope, inlined, {}) == Ok([]);
    assert ResolveFrom(cat, e.inputs, 0, scope, inlined, {}) == Ok([x] + []) && [x] + [] == [x];
    assert Types([x]) == [x.ty] && CastArguments([x], [x.ty]) == [x];
    assert ResolveForm(cat, "f", [x]) == Ok(None);
    SqlUnfolds(cat, e, "f", f, [x], inlined, {});
    assert {} + {"f"} == {"f"};
    assert ResolveCall(cat, e, "f", [x], inlined, {}) ==
           Ok(ResolveSqlFunction(cat, e, "f", [x], inlined, {}).value.value);
  }

  const NARROWING := SqlFunction(["p"], [Integer], UCast(Tinyint, false, Column("p")), Tinyint, false)

  lemma {:induction false} NarrowingResolves(cat: Catalog, inlined: bool)
    requires WidensAndHas(cat, NARROWING, Integer)
    ensures Resolve(cat, UCall("f", [Column("x")]), Row300(), inlined, {}) ==
            Ok(if inlined then CastTo(Tinyint, InputRef(Integer, "x"))
               else SqlCall(Tinyint, ["p"], [InputRef(Integer, "x")], CastTo(Tinyint, InputRef(Integer, "p")), false))
  {
    var x := InputRef(Integer, "x");
    var p := if inlined then x else InputRef(Integer, "p");
    BindAt(["p"], if inlined then [x] else Params(["p"], [x]), 0);
    assert BodyScope(NARROWING, [x], inlined).columns["p"] == p;
    assert Resolve(cat, NARROWING.body, BodyScope(NARROWING, [x], inlined), inlined, {"f"}) == Ok(CastTo(Tinyint, p));
    assert !ContainsSubquery(CastTo(Tinyint, p).inputs[0]);
    ResolvesCall(cat, NARROWING, Column("x"), x, Row300(), inlined);
  }

  /** The body of f is a cast: f(p) = CAST(p AS TINYINT). Over an x of 300 the call f(x) fails, and so
      does f(x) IN (300, 400); inlined, IN replaces the cast and is true. */
  lemma {:induction false} InlinedCastDiffers(engine: Engine, cat: Catalog)
    requires WidensAndHas(cat, NARROWING, Integer)
    ensures var e := UCall("in", [UCall("f", [Column("x")])] + IN_300);
            var t, u := Resolve(cat, e, Row300(), true, {}), Resolve(cat, e, Row300(), false, {});
            var env: Env := map["x" := Val(IntV(KInteger, 300))];
            && t.Ok? && Eval(engine, t.value, env) == Val(BoolV(true))
            && u.Ok? && Eval(engine, u.value, env) == Err
  {
    var env: Env := map["x" := Val(IntV(KInteger, 300))];
    var x := InputRef(Integer, "x");
    var call := SqlCall(Tinyint, ["p"], [x], CastTo(Tinyint, InputRef(Integer, "p")), false);
    NarrowingResolves(cat, true);
    NarrowingResolves(cat, false);
    ResolvesIn(cat, UCall("f", [Column("x")]), Row300(), true, {}, CastTo(Tinyint, x));
    ResolvesIn(cat, UCall("f", [Column("x")]), Row300(), false, {}, call);
    InPeelsCasts(engine, cat.superType, env);
    TinyintForm(cat.superType, call);
    NarrowingFails(engine, env);
    FailingOperand(engine, call, Constant(Array(Integer), ArrayV(IntegerValues([300, 400]))), env);
  }

  lemma {:induction false} NarrowingFails(engine: Engine, env: Env)
    requires env == map["x" := Val(IntV(KInteger, 300))]
    ensures Eval(engine, SqlCall(Tinyint, ["p"], [InputRef(Integer, "x")], CastTo(Tinyint, InputRef(Integer, "p")), false), env) == Err
  {
    var x, p := InputRef(Integer, "x"), InputRef(Integer, "p");
    var os := EvalAll(engine, [x], env);
    var inner := Bind(["p"], os);
    assert os == [Val(IntV(KInteger, 300))];
    BindAt(["p"], os, 0);
    CallOutcome(engine, Tinyint, ["p"], [x], CastTo(Tinyint, p), false, env);
    CastOutcome(engine, p, Tinyint, inner);
    assert Half(KTinyint) == 128;
  }

  const LISTING := SqlFunction(["p"], [Tinyint], UCall("in", [Column("p")] + IN_300), Boolean, false)

  lemma {:induction false} ListingResolves(cat: Catalog, argument: Expr, inlined: bool)
    requires WidensAndHas(cat, LISTING, Tinyint) && argument == CastTo(Tinyint, InputRef(Integer, "x"))
    ensures var stored := Constant(Array(Integer), ArrayV(IntegerValues([300, 400])));
            Resolve(cat, LISTING.body, BodyScope(LISTING, [argument], inlined), inlined, {"f"}) ==
            Ok(Special(Boolean, InArray,
                 [CastTo(Integer, if inlined then argument.inputs[0] else InputRef(Tinyint, "p")), stored]))
  {
    var p := if inlined then argument else InputRef(Tinyint, "p");
    BindAt(["p"], if inlined then [argument] else Params(["p"], [argument]), 0);
    assert BodyScope(LISTING, [argument], inlined).columns["p"] == p;
    ResolvesIn(cat, Column("p"), BodyScope(LISTING, [argument], inlined), inlined, {"f"}, p);
    if inlined { PeeledForm(cat.superType); } else { TinyintForm(cat.superType, p); }
  }

  /** The parameter is bound to a cast: f(p) = p IN (300, 400) over a TINYINT p. Over an x of 300 the
      argument of f(CAST(x AS TINYINT)) fails, and so does the call; inlined, IN replaces the
      argument's cast and is true. */
  lemma {:induction false} ArgumentCastDiffers(engine: Engine, cat: Catalog)
    requires WidensAndHas(cat, LISTING, Tinyint)
    ensures var e := UCall("f", [UCast(Tinyint, false, Column("x"))]);
            var t, u := Resolve(cat, e, Row300(), true, {}), Resolve(cat, e, Row300(), false, {});
            var env: Env := map["x" := Val(IntV(KInteger, 300))];
            && t.Ok? && Eval(engine, t.value, env) == Val(BoolV(true))
            && u.Ok? && Eval(engine, u.value, env) == Err
  {
    var env: Env := map["x" := Val(IntV(KInteger, 300))];
    ListingCallResolves(cat, true);
    ListingCallResolves(cat, false);
    ListingTrue(engine, cat, env);
    CastRejects(engine, env);
    assert EvalAll(engine, [CastTo(Tinyint, InputRef(Integer, "x"))], env)[0].Err?;
  }

  lemma {:induction false} ListingTrue(engine: Engine, cat: Catalog, env: Env)
    requires WidensAndHas(cat, LISTING, Tinyint) && env == map["x" := Val(IntV(KInteger, 300))]
    ensures var stored := Constant(Array(Integer), ArrayV(IntegerValues([300, 400])));
            Eval(engine, Special(Boolean, InArray, [CastTo(Integer, InputRef(Integer, "x")), stored]), env) == Val(BoolV(true))
  {
    InPeelsCasts(engine, cat.superType, env);
    PeeledForm(cat.superType);
  }

  lemma {:induction false} ListingCallResolves(cat: Catalog, inlined: bool)
    requires WidensAndHas(cat, LISTING, Tinyint)
    ensures var argument := CastTo(Tinyint, InputRef(Integer, "x"));
            var b := Resolve(cat, LISTING.body, BodyScope(LISTING, [argument], inlined), inlined, {"f"});
            && b == Ok(Special(Boolean, InArray,
                 [CastTo(Integer, if inlined then argument.inputs[0] else InputRef(Tinyint, "p")),
                  Constant(Array(Integer), ArrayV(IntegerValues([300, 400])))]))
            && Resolve(cat, UCall("f", [UCast(Tinyint, false, Column("x"))]), Row300(), inlined, {}) ==
               Ok(if inlined then b.value else SqlCall(Boolean, ["p"], [argument], b.value, false))
  {
    var argument := CastTo(Tinyint, InputRef(Integer, "x"));
    assert Resolve(cat, UCast(Tinyint, false, Column("x")), Row300(), inlined, {}) == Ok(argument);
    UsesParameter();
    ListingResolves(cat, argument, inlined);
    ListingFree(if inlined then argument.inputs[0] else InputRef(Tinyint, "p"));
    ResolvesCall(cat, LISTING, UCast(Tinyint, false, Column("x")), argument, Row300(), inlined);
  }

  lemma {:induction false} ListingFree(x: Expr)
    requires x.InputRef?
    ensures !ContainsSubquery(Special(Boolean, InArray, [CastTo(Integer, x), Constant(Array(Integer), ArrayV(IntegerValues([300, 400])))]))
  {
    assert !ContainsSubquery(CastTo(Integer, x).inputs[0]);
  }

  lemma {:induction false} UsesParameter()
    ensures UsedColumns(LISTING.body) == (set n | n in LISTING.argumentNames)
  {
    var inputs := [Column("p")] + IN_300;
    assert UsedColumns(inputs[0]) == {"p"} && UsedColumns(inputs[1]) == {} && UsedColumns(inputs[2]) == {};
  }

  // ----- A resolution that succeeds never re-enters a body it is inlining.

  /** The chains of nested inlinings of a successful resolution: each chain starts at a call in
      the expression and goes on with a chain of the called function's body. */
  ghost function Chains(cat: Catalog, e: UExpr, scope: Scope, guard: set<string>): set<seq<string>>
    requires Resolve(cat, e, scope, true, guard).Ok?
    decreases cat.sqlNames - guard, e, 1, 0
  {
    match e
    case Field(input, name) =>
      if input.Column? && (input.name, name) in scope.qualified then {} else Chains(cat, input, scope, guard)
    case UCast(_, _, input) => Chains(cat, input, scope, guard)
    case URow(_, inputs) => ChainsFrom(cat, inputs, 0, scope, guard)
    case UCall(name, inputs) =>
      if name == "in" && |inputs| >= 3 && AllLiterals(inputs[1..]) then Chains(cat, inputs[0], scope, guard)
      else
        var resolved := ResolveFrom(cat, inputs, 0, scope, true, guard).value;
        assert ResolveCall(cat, e, name, resolved, true, guard).Ok?;
        ChainsFrom(cat, inputs, 0, scope, guard) +
        if ResolveForm(cat, name, resolved).value.None? && cat.sqlFunction(name, Types(resolved)).Some?
        then CallChains(cat, e, name, resolved, guard) else {}
    case _ => {}
  }

  ghost function ChainsFrom(cat: Catalog, es: seq<UExpr>, i: nat, scope: Scope, guard: set<string>): set<seq<string>>
    requires i <= |es| && ResolveFrom(cat, es, i, scope, true, guard).Ok?
    decreases cat.sqlNames - guard, es, 0, |es| - i
  {
    if i == |es| then {} else Chains(cat, es[i], scope, guard) + ChainsFrom(cat, es, i + 1, scope, guard)
  }

  ghost function CallChains(cat: Catalog, e: UExpr, name: string, inputs: seq<Expr>, guard: set<string>): set<seq<string>>
    requires ResolveSqlFunction(cat, e, name, inputs, true, guard).Ok?
    requires cat.sqlFunction(name, Types(inputs)).Some?
    decreases cat.sqlNames - guard, e, 0, 0
  {
    var f := cat.sqlFunction(name, Types(inputs)).value;
    var args := CastArguments(inputs, f.argumentTypes);
    assert cat.sqlNames - (guard + {name}) < cat.sqlNames - guard by { assert name in cat.sqlNames - guard; }
    var nested := Chains(cat, f.body, Scope(Bind(f.argumentNames, args), map[]), guard + {name});
    {[name]} + set c | c in nested :: [name] + c
  }

  /** Names new to the guard, each known, none repeated. */
  ghost predicate FreshChain(cat: Catalog, c: seq<string>, guard: set<string>) {
    Distinct(c) && (forall i :: 0 <= i < |c| ==> c[i] in cat.sqlNames && c[i] !in guard)
  }

  /** No chain of nested inlinings repeats a name or enters a function being inlined outside,
      so a chain is never longer than the number of SQL functions not being inlined. */
  lemma {:induction false} ChainsNeverRepeat(cat: Catalog, e: UExpr, scope: Scope, guard: set<string>)
    requires Resolve(cat, e, scope, true, guard).Ok?
    ensures forall c :: c in Chains(cat, e, scope, guard) ==>
              FreshChain(cat, c, guard) && |c| <= |cat.sqlNames - guard|
    decreases cat.sqlNames - guard, e, 1, 0
  {
    match e
    case Field(input, name) =>
      if !(input.Column? && (input.name, name) in scope.qualified) { ChainsNeverRepeat(cat, input, scope, guard); }
    case UCast(_, _, input) => ChainsNeverRepeat(cat, input, scope, guard);
    case URow(_, inputs) => ChainsFromNeverRepeat(cat, inputs, 0, scope, guard);
    case UCall(name, inputs) =>
      if name == "in" && |inputs| >= 3 && AllLiterals(inputs[1..]) {
        ChainsNeverRepeat(cat, inputs[0], scope, guard);
      } else {
        ChainsFromNeverRepeat(cat, inputs, 0, scope, guard);
        var resolved := ResolveFrom(cat, inputs, 0, scope, true, guard).value;
        if ResolveForm(cat, name, resolved).value.None? && cat.sqlFunction(name, Types(resolved)).Some? {
          CallChainsNeverRepeat(cat, e, name, resolved, guard);
        }
      }
    case _ =>
  }

  lemma {:induction false} ChainsFromNeverRepeat(cat: Catalog, es: seq<UExpr>, i: nat, scope: Scope, guard: set<string>)
    requires i <= |es| && ResolveFrom(cat, es, i, scope, true, guard).Ok?
    ensures forall c :: c in ChainsFrom(cat, es, i, scope, guard) ==>
              FreshChain(cat, c, guard) && |c| <= |cat.sqlNames - guard|
    decreases cat.sqlNames - guard, es, 0, |es| - i
  {
    if i < |es| {
      ChainsNeverRepeat(cat, es[i], scope, guard);
      ChainsFromNeverRepeat(cat, es, i + 1, scope, guard);
    }
  }

  lemma {:induction false} CallChainsNeverRepeat(
      cat: Catalog, e: UExpr, name: string, inputs: seq<Expr>, guard: set<string>)
    requires ResolveSqlFunction(cat, e, name, inputs, true, guard).Ok?
    requires cat.sqlFunction(name, Types(inputs)).Some?
    ensures forall c :: c in CallChains(cat, e, name, inputs, guard) ==>
              FreshChain(cat, c, guard) && |c| <= |cat.sqlNames - guard|
    decreases cat.sqlNames - guard, e, 0, 0
  {
    var f := cat.sqlFunction(name, Types(inputs)).value;
    var bound := Scope(Bind(f.argumentNames, CastArguments(inputs, f.argumentTypes)), map[]);
    assert cat.sqlNames - (guard + {name}) < cat.sqlNames - guard by { assert name in cat.sqlNames - guard; }
    ChainsNeverRepeat(cat, f.body, bound, guard + {name});
    forall c | c in CallChains(cat, e, name, inputs, guard)
      ensures FreshChain(cat, c, guard) && |c| <= |cat.sqlNames - guard|
    {
      if c == [name] {
        LongerChain(cat, name, [], guard);
        assert [name] + [] == [name];
      } else {
        var nested :| nested in Chains(cat, f.body, bound, guard + {name}) && c == [name] + nested;
        LongerChain(cat, name, nested, guard);
      }
    }
  }

  lemma {:induction false} LongerChain(cat: Catalog, name: string, c: seq<string>, guard: set<string>)
    requires name in cat.sqlNames && name !in guard && FreshChain(cat, c, guard + {name})
    requires |c| <= |cat.sqlNames - (guard + {name})|
    ensures FreshChain(cat, [name] + c, guard) && |[name] + c| <= |cat.sqlNames - guard|
  {
    assert cat.sqlNames - guard == (cat.sqlNames - (guard + {name})) + {name};
    assert forall i :: 1 <= i < |[name] + c| ==> ([name] + c)[i] == c[i - 1];
  }
}
