/** Inlining a SQL function preserves meaning. */
module Inlining {
  import opened Wrappers
  import opened Values
  import opened Exprs
  import opened Resolver

  // ----- Substituting expressions for columns.

  function Subst(e: Expr, s: map<string, Expr>): Expr {
    match e
    case InputRef(_, x) => if x in s then s[x] else e
    case Call(ty, name, inputs) => Call(ty, name, seq(|inputs|, i requires 0 <= i < |inputs| => Subst(inputs[i], s)))
    case Special(ty, form, inputs) =>
      Special(ty, form, seq(|inputs|, i requires 0 <= i < |inputs| => Subst(inputs[i], s)))
    case CoercedSubquery(ty, query) => CoercedSubquery(ty, Subst(query, s))
    case SqlCall(ty, params, args, body, nullOnNull) =>
      SqlCall(ty, params, seq(|args|, i requires 0 <= i < |args| => Subst(args[i], s)), body, nullOnNull)
    case _ => e
  }

  function SubstAll(es: seq<Expr>, s: map<string, Expr>): (r: seq<Expr>)
    ensures |r| == |es| && forall i :: 0 <= i < |es| ==> r[i] == Subst(es[i], s)
  {
    seq(|es|, i requires 0 <= i < |es| => Subst(es[i], s))
  }

  function SubstMap<K(==)>(m: map<K, Expr>, s: map<string, Expr>): (r: map<K, Expr>)
    ensures r.Keys == m.Keys && forall k :: k in m ==> r[k] == Subst(m[k], s)
  {
    map k | k in m :: Subst(m[k], s)
  }

  function SubstScope(scope: Scope, s: map<string, Expr>): Scope {
    Scope(SubstMap(scope.columns, s), SubstMap(scope.qualified, s))
  }

  /** The substitution replaces every column, by an expression of the column's type. */
  predicate WellBound(e: Expr, s: map<string, Expr>) {
    match e
    case InputRef(ty, x) => x in s && s[x].ty == ty
    case Call(_, _, inputs) => forall i :: 0 <= i < |inputs| ==> WellBound(inputs[i], s)
    case Special(_, _, inputs) => forall i :: 0 <= i < |inputs| ==> WellBound(inputs[i], s)
    case CoercedSubquery(_, query) => WellBound(query, s)
    case SqlCall(_, _, args, _, _) => forall i :: 0 <= i < |args| ==> WellBound(args[i], s)
    case _ => true
  }

  predicate WellBoundScope(scope: Scope, s: map<string, Expr>) {
    && (forall x :: x in scope.columns ==> WellBound(scope.columns[x], s))
    && (forall q :: q in scope.qualified ==> WellBound(scope.qualified[q], s))
  }

  predicate SubqueryFree(s: map<string, Expr>) {
    forall x :: x in s ==> !ContainsSubquery(s[x])
  }

  lemma {:induction false} SubstType(e: Expr, s: map<string, Expr>)
    requires WellBound(e, s)
    ensures Subst(e, s).ty == e.ty
  {
  }

  lemma {:induction false} SubstTypes(es: seq<Expr>, s: map<string, Expr>)
    requires forall i :: 0 <= i < |es| ==> WellBound(es[i], s)
    ensures Types(SubstAll(es, s)) == Types(es)
  {
    forall i | 0 <= i < |es| ensures SubstAll(es, s)[i].ty == es[i].ty { SubstType(es[i], s); }
  }

  lemma {:induction false} SubstSubquery(e: Expr, s: map<string, Expr>)
    requires SubqueryFree(s)
    ensures ContainsSubquery(Subst(e, s)) == ContainsSubquery(e)
  {
    match e
    case Call(_, _, inputs) =>
      forall i | 0 <= i < |inputs| ensures ContainsSubquery(Subst(e, s).inputs[i]) == ContainsSubquery(inputs[i]) {
        SubstSubquery(inputs[i], s);
      }
    case Special(_, _, inputs) =>
      forall i | 0 <= i < |inputs| ensures ContainsSubquery(Subst(e, s).inputs[i]) == ContainsSubquery(inputs[i]) {
        SubstSubquery(inputs[i], s);
      }
    case SqlCall(_, _, args, _, _) =>
      forall i | 0 <= i < |args| ensures ContainsSubquery(Subst(e, s).args[i]) == ContainsSubquery(args[i]) {
        SubstSubquery(args[i], s);
      }
    case _ =>
  }

  /** Evaluating a substituted expression is evaluating the expression over the outcomes of
      what was substituted. */
  lemma {:induction false} EvalSubst(engine: Engine, e: Expr, s: map<string, Expr>, env: Env, inner: Env)
    requires WellBound(e, s)
    requires forall x :: x in s ==> Lookup(inner, x) == Eval(engine, s[x], env)
    ensures Eval(engine, Subst(e, s), env) == Eval(engine, e, inner)
    decreases e
  {
    match e
    case Call(_, _, inputs) => EvalSubstAll(engine, inputs, s, env, inner);
    case Special(_, _, inputs) => EvalSubstAll(engine, inputs, s, env, inner); SubstTypes(inputs, s);
    case CoercedSubquery(_, query) => EvalSubst(engine, query, s, env, inner); SubstType(query, s);
    case SqlCall(_, _, args, _, _) => EvalSubstAll(engine, args, s, env, inner);
    case _ =>
  }

  lemma {:induction false} EvalSubstAll(
      engine: Engine, es: seq<Expr>, s: map<string, Expr>, env: Env, inner: Env)
    requires forall i :: 0 <= i < |es| ==> WellBound(es[i], s)
    requires forall x :: x in s ==> Lookup(inner, x) == Eval(engine, s[x], env)
    ensures EvalAll(engine, SubstAll(es, s), env) == EvalAll(engine, es, inner)
    decreases es
  {
    forall i | 0 <= i < |es| ensures Eval(engine, Subst(es[i], s), env) == Eval(engine, es[i], inner) {
      EvalSubst(engine, es[i], s, env, inner);
    }
  }

  // ----- Each construction of the resolver commutes with substitution.

  ghost predicate AllWellBound(es: seq<Expr>, s: map<string, Expr>) {
    forall i :: 0 <= i < |es| ==> WellBound(es[i], s)
  }

  lemma {:induction false} SpecialCommutes(ty: Type, form: Form, inputs: seq<Expr>, s: map<string, Expr>)
    requires AllWellBound(inputs, s) && ValidSpecial(ty, form, inputs)
    ensures MakeSpecial(ty, form, SubstAll(inputs, s)) == Ok(Subst(Special(ty, form, inputs), s))
    ensures WellBound(Special(ty, form, inputs), s)
  {
    SubstTypes(inputs, s);
    var types := Types(inputs);
    assert forall i :: 0 <= i < |inputs| ==> SubstAll(inputs, s)[i].ty == types[i];
  }

  lemma {:induction false} CoercionsCommute(inputs: seq<Expr>, coercions: seq<Option<Type>>, s: map<string, Expr>)
    requires AllWellBound(inputs, s) && ApplyCoercions(inputs, coercions).Ok?
    ensures ApplyCoercions(SubstAll(inputs, s), coercions) == Ok(SubstAll(ApplyCoercions(inputs, coercions).value, s))
    ensures AllWellBound(ApplyCoercions(inputs, coercions).value, s)
  {
    var coerced := ApplyCoercions(inputs, coercions).value;
    forall i | 0 <= i < |inputs| && coercions != []
      ensures ApplyCoercions(SubstAll(inputs, s), coercions).value[i] == Subst(coerced[i], s) && WellBound(coerced[i], s)
    {
      if coercions[i].Some? {
        assert Subst(coerced[i], s).inputs == [Subst(inputs[i], s)];
      }
    }
    if coercions != [] {
      assert ApplyCoercions(SubstAll(inputs, s), coercions).value == SubstAll(coerced, s);
    }
  }

  lemma {:induction false} ScalarCommutes(cat: Catalog, name: string, inputs: seq<Expr>, s: map<string, Expr>)
    requires AllWellBound(inputs, s) && ResolveScalar(cat, name, inputs).Ok?
    ensures ResolveScalar(cat, name, SubstAll(inputs, s)) == Ok(Subst(ResolveScalar(cat, name, inputs).value, s))
    ensures WellBound(ResolveScalar(cat, name, inputs).value, s)
  {
    SubstTypes(inputs, s);
    CoercionsCommute(inputs, cat.scalar(name, Types(inputs)).value.coercions, s);
  }

  lemma {:induction false} CoercedFormCommutes(cat: Catalog, form: Form, name: string, inputs: seq<Expr>, s: map<string, Expr>)
    requires AllWellBound(inputs, s) && ResolveFormWithCoercions(cat, form, name, inputs).Ok?
    ensures var r := ResolveFormWithCoercions(cat, form, name, inputs).value;
            WellBound(r, s) && ResolveFormWithCoercions(cat, form, name, SubstAll(inputs, s)) == Ok(Subst(r, s))
  {
    SubstTypes(inputs, s);
    var signature := cat.form(name, Types(inputs)).value;
    CoercionsCommute(inputs, signature.coercions, s);
    SpecialCommutes(signature.returnType, form, ApplyCoercions(inputs, signature.coercions).value, s);
  }

  lemma {:induction false} NullElseCommutes(inputs: seq<Expr>, s: map<string, Expr>)
    requires AllWellBound(inputs, s)
    ensures AllWellBound(WithNullElse(inputs), s)
    ensures WithNullElse(SubstAll(inputs, s)) == SubstAll(WithNullElse(inputs), s)
  {
    SubstTypes(inputs, s);
    if |inputs| == 2 { SubstType(inputs[1], s); }
  }

  lemma {:induction false} SubscriptCommutes(inputs: seq<Expr>, s: map<string, Expr>)
    requires |inputs| > 0 && inputs[0].ty.Row?
    requires AllWellBound(inputs, s) && ResolveSubscript(inputs).Ok?
    ensures var r := ResolveSubscript(inputs).value;
            WellBound(r, s) && Subst(inputs[0], s).ty.Row? &&
            ResolveSubscript(SubstAll(inputs, s)) == Ok(Subst(r, s))
  {
    SubstType(inputs[0], s);
    var index := inputs[1].value.n;
    var dereferenced := [inputs[0], Constant(Integer, IntV(KInteger, index - 1))];
    SpecialCommutes(inputs[0].ty.fields[index - 1], Dereference, dereferenced, s);
    assert SubstAll(dereferenced, s) == [Subst(inputs[0], s), Constant(Integer, IntV(KInteger, index - 1))];
  }

  lemma {:induction false} FieldCommutes(input: Expr, name: string, s: map<string, Expr>)
    requires WellBound(input, s) && ResolveField(input, name).Ok?
    ensures ResolveField(Subst(input, s), name) == Ok(Subst(ResolveField(input, name).value, s))
    ensures WellBound(ResolveField(input, name).value, s)
  {
    SubstType(input, s);
    var r := ResolveField(input, name).value;
    SpecialCommutes(r.ty, Dereference, r.inputs, s);
    assert SubstAll(r.inputs, s) == [Subst(input, s), r.inputs[1]];
  }

  lemma {:induction false} FormCommutes(cat: Catalog, name: string, inputs: seq<Expr>, s: map<string, Expr>)
    requires AllWellBound(inputs, s) && name != "in" && ResolveForm(cat, name, inputs).Ok?
    ensures var r := ResolveForm(cat, name, inputs).value;
            && (r.None? ==> ResolveForm(cat, name, SubstAll(inputs, s)) == Ok(None))
            && (r.Some? ==> WellBound(r.value, s) &&
                            ResolveForm(cat, name, SubstAll(inputs, s)) == Ok(Some(Subst(r.value, s))))
  {
    SubstTypes(inputs, s);
    if |inputs| > 0 { SubstType(inputs[0], s); }
    if name == "and" {
      CoercedFormCommutes(cat, And, name, inputs, s);
    } else if name == "or" {
      CoercedFormCommutes(cat, Or, name, inputs, s);
    } else if name == "coalesce" {
      CoercedFormCommutes(cat, Coalesce, name, inputs, s);
    } else if name == "if" {
      NullElseCommutes(inputs, s);
      CoercedFormCommutes(cat, If, name, WithNullElse(inputs), s);
    } else if name == "row_constructor" {
      SpecialCommutes(Row(seq(|inputs|, i => ""), Types(inputs)), RowConstructor, inputs, s);
      assert seq(|SubstAll(inputs, s)|, i => "") == seq(|inputs|, i => "");
    } else if name == "try" {
      SpecialCommutes(inputs[0].ty, Try, inputs, s);
    } else if name == "subscript" && |inputs| > 0 && inputs[0].ty.Row? {
      SubscriptCommutes(inputs, s);
    }
  }

  lemma {:induction false} ArgumentsCommute(inputs: seq<Expr>, types: seq<Type>, s: map<string, Expr>)
    requires |inputs| == |types| && AllWellBound(inputs, s)
    ensures CastArguments(SubstAll(inputs, s), types) == SubstAll(CastArguments(inputs, types), s)
    ensures AllWellBound(CastArguments(inputs, types), s)
  {
    SubstTypes(inputs, s);
    forall i | 0 <= i < |inputs|
      ensures CastArguments(SubstAll(inputs, s), types)[i] == Subst(CastArguments(inputs, types)[i], s)
      ensures WellBound(CastArguments(inputs, types)[i], s)
    {
      SubstType(inputs[i], s);
      assert Subst(CastTo(types[i], inputs[i]), s).inputs == [Subst(inputs[i], s)];
    }
  }

  lemma {:induction false} BindCommutes(names: seq<string>, args: seq<Expr>, s: map<string, Expr>)
    requires |names| == |args| && AllWellBound(args, s)
    ensures Bind(names, SubstAll(args, s)) == SubstMap(Bind(names, args), s)
    ensures WellBoundScope(Scope(Bind(names, args), map[]), s)
  {
    if names != [] {
      var n := |names| - 1;
      BindCommutes(names[..n], args[..n], s);
      assert SubstAll(args, s)[..n] == SubstAll(args[..n], s);
    }
  }

  lemma {:induction false} NullGuardCommutes(body: Expr, args: seq<Expr>, s: map<string, Expr>)
    requires WellBound(body, s) && AllWellBound(args, s)
    ensures Subst(NullGuard(body, args), s) == NullGuard(Subst(body, s), SubstAll(args, s))
    ensures WellBound(NullGuard(body, args), s)
  {
    SubstType(body, s);
    if args != [] {
      var tests := NullTests(args);
      forall i | 0 <= i < |args|
        ensures Subst(tests[i], s) == NullTests(SubstAll(args, s))[i] && WellBound(tests[i], s)
      {
        assert Subst(tests[i], s).inputs == [Subst(args[i], s)];
      }
      assert SubstAll(tests, s) == NullTests(SubstAll(args, s));
      var g := NullGuard(body, args);
      if |args| > 1 { assert Subst(g.inputs[0], s).inputs == SubstAll(tests, s); }
      assert Subst(g, s).inputs == NullGuard(Subst(body, s), SubstAll(args, s)).inputs;
    }
  }

  lemma {:induction false} FinishCommutes(cat: Catalog, f: SqlFunction, args: seq<Expr>, body: Expr, s: map<string, Expr>)
    requires WellBound(body, s) && AllWellBound(args, s) && SubqueryFree(s)
    requires FinishBody(cat, f, args, body, true).Ok?
    ensures var r := FinishBody(cat, f, args, body, true).value;
            WellBound(r, s) && FinishBody(cat, f, SubstAll(args, s), Subst(body, s), true) == Ok(Subst(r, s))
  {
    SubstSubquery(body, s);
    SubstType(body, s);
    var result := CastResult(cat, body, f.returnType).value;
    assert Subst(CastTo(f.returnType, body), s).inputs == [Subst(body, s)];
    NullGuardCommutes(result, args, s);
  }

  // ----- IN coerces its operands, looking inside those that are casts.

  lemma {:induction false} NotItsOwnInput(e: Expr)
    requires IsCast(e)
    ensures e.inputs[0] != e
  {
    if e.inputs[0] == e { NotItsOwnInput(e.inputs[0]); }
  }

  /** The operand is not coerced, or is not a column bound to a cast or a subquery. */
  predicate CoercesAlike(e: Expr, ty: Type, s: map<string, Expr>) {
    Equivalent(e.ty, ty) || !(e.InputRef? && e.name in s && (IsCast(s[e.name]) || IsSubquery(s[e.name])))
  }

  /** Coercing an operand commutes with substituting into it in exactly that case. */
  lemma {:induction false} CoercionCommutes(e: Expr, ty: Type, s: map<string, Expr>)
    requires WellBound(e, s)
    ensures CoerceOne(Subst(e, s), ty) == Subst(CoerceOne(e, ty), s) <==> CoercesAlike(e, ty, s)
    ensures WellBound(CoerceOne(e, ty), s)
  {
    SubstType(e, s);
    if !Equivalent(e.ty, ty) {
      CastToCommutes(e, ty, s);
      if e.InputRef? {
        if IsCast(s[e.name]) { NotItsOwnInput(s[e.name]); }
      } else if IsCast(e) {
        assert Subst(e, s).inputs == [Subst(e.inputs[0], s)];
        CastToCommutes(e.inputs[0], ty, s);
      }
    }
  }

  lemma {:induction false} CastToCommutes(e: Expr, ty: Type, s: map<string, Expr>)
    ensures Subst(CastTo(ty, e), s) == CastTo(ty, Subst(e, s)) && (WellBound(e, s) ==> WellBound(CastTo(ty, e), s))
  {
    assert Subst(CastTo(ty, e), s).inputs == [Subst(e, s)];
  }

  /** Every operand of the IN coerces alike before and after the substitution. */
  predicate InAlike(cat: Catalog, ts: seq<Expr>, s: map<string, Expr>) {
    ts != [] ==>
      var common := CommonType(cat.superType, ts[0].ty, Types(ts[1..]));
      common.Some? ==> forall i :: 0 <= i < |ts| ==> CoercesAlike(ts[i], common.value, s)
  }

  /** IN over any operands that coerce alike commutes with substitution. */
  lemma {:induction false} ListInCommutes(cat: Catalog, ts: seq<Expr>, s: map<string, Expr>)
    requires AllWellBound(ts, s) && InAlike(cat, ts, s) && ResolveIn(Some(cat.superType), ts).Ok?
    ensures var r := ResolveIn(Some(cat.superType), ts).value;
            WellBound(r, s) && ResolveIn(Some(cat.superType), SubstAll(ts, s)) == Ok(Subst(r, s))
  {
    SubstTypes(ts, s);
    assert Types(SubstAll(ts, s)[1..]) == Types(ts[1..]);
    SubstType(ts[0], s);
    var common := CommonType(cat.superType, ts[0].ty, Types(ts[1..])).value;
    var coerced := CoerceAll(ts, common);
    forall i | 0 <= i < |ts|
      ensures WellBound(coerced[i], s) && CoerceAll(SubstAll(ts, s), common)[i] == Subst(coerced[i], s)
    {
      CoercionCommutes(ts[i], common, s);
    }
    assert CoerceAll(SubstAll(ts, s), common) == SubstAll(coerced, s);
    SpecialCommutes(Boolean, In, coerced, s);
  }

  /** The list form, or with constant the form for two or more literals. */
  function ResolveInForms(cat: Catalog, constant: bool, ts: seq<Expr>): Result<Expr, Error>
    requires ts != [] && (constant ==> ConstantTail(ts))
  {
    if constant then ResolveConstantIn(Some(cat.superType), ts[0], ts[1..]) else ResolveIn(Some(cat.superType), ts)
  }

  predicate ConstantTail(ts: seq<Expr>) {
    forall i :: 0 < i < |ts| ==> ts[i].Constant?
  }

  lemma {:induction false} InArrayCommutes(e: Expr, ty: Type, stored: Expr, s: map<string, Expr>)
    requires WellBound(e, s) && CoercesAlike(e, ty, s) && stored.Constant?
    requires ValidSpecial(Boolean, InArray, [CoerceOne(e, ty), stored])
    ensures var r := Special(Boolean, InArray, [CoerceOne(e, ty), stored]);
            WellBound(r, s) && MakeSpecial(Boolean, InArray, [CoerceOne(Subst(e, s), ty), stored]) == Ok(Subst(r, s))
  {
    CoercionCommutes(e, ty, s);
    var operand := CoerceOne(e, ty);
    SpecialCommutes(Boolean, InArray, [operand, stored], s);
    assert SubstAll([operand, stored], s) == [Subst(operand, s), stored];
  }

  lemma {:induction false} ConstantInCommutes(cat: Catalog, ts: seq<Expr>, s: map<string, Expr>)
    requires ts != [] && ConstantTail(ts) && AllWellBound(ts, s) && InAlike(cat, ts, s)
    requires ResolveConstantIn(Some(cat.superType), ts[0], ts[1..]).Ok?
    ensures var r := ResolveConstantIn(Some(cat.superType), ts[0], ts[1..]).value;
            WellBound(r, s) && ResolveConstantIn(Some(cat.superType), Subst(ts[0], s), ts[1..]) == Ok(Subst(r, s))
  {
    SubstType(ts[0], s);
    var common := CommonType(cat.superType, ts[0].ty, Types(ts[1..]));
    if common.Some? && !common.value.Unknown? && LiteralArray(ts[1..], common.value).Some? {
      var stored := Constant(Array(common.value), ArrayV(LiteralArray(ts[1..], common.value).value));
      InArrayCommutes(ts[0], common.value, stored, s);
    } else {
      ListFallbackCommutes(cat, ts, s);
    }
  }

  lemma {:induction false} ListFallbackCommutes(cat: Catalog, ts: seq<Expr>, s: map<string, Expr>)
    requires ts != [] && ConstantTail(ts) && AllWellBound(ts, s) && InAlike(cat, ts, s)
    requires ResolveIn(Some(cat.superType), [ts[0]] + ts[1..]).Ok?
    ensures var r := ResolveIn(Some(cat.superType), [ts[0]] + ts[1..]).value;
            WellBound(r, s) && ResolveIn(Some(cat.superType), [Subst(ts[0], s)] + ts[1..]) == Ok(Subst(r, s))
  {
    HeadAndConstants(ts, s);
    ListInCommutes(cat, ts, s);
  }

  lemma {:induction false} HeadAndConstants(ts: seq<Expr>, s: map<string, Expr>)
    requires ts != [] && ConstantTail(ts)
    ensures [ts[0]] + ts[1..] == ts && [Subst(ts[0], s)] + ts[1..] == SubstAll(ts, s)
  {
  }

  lemma {:induction false} InFormsCommute(cat: Catalog, constant: bool, ts: seq<Expr>, s: map<string, Expr>)
    requires ts != [] && (constant ==> ConstantTail(ts)) && AllWellBound(ts, s) && InAlike(cat, ts, s)
    requires ResolveInForms(cat, constant, ts).Ok?
    ensures constant ==> ConstantTail(SubstAll(ts, s))
    ensures var r := ResolveInForms(cat, constant, ts).value;
            WellBound(r, s) && ResolveInForms(cat, constant, SubstAll(ts, s)) == Ok(Subst(r, s))
  {
    if constant {
      assert SubstAll(ts, s)[1..] == ts[1..];
      ConstantInCommutes(cat, ts, s);
    } else {
      ListInCommutes(cat, ts, s);
    }
  }

  predicate IsConstantIn(inputs: seq<UExpr>) {
    |inputs| >= 3 && AllLiterals(inputs[1..])
  }

  lemma {:induction false} LiteralsResolve(
      cat: Catalog, es: seq<UExpr>, i: nat, scope: Scope, inlined: bool, guard: set<string>)
    requires i <= |es| && forall j :: i <= j < |es| ==> es[j].Literal?
    ensures var r := ResolveFrom(cat, es, i, scope, inlined, guard);
            && (r.Ok? <==> forall j :: i <= j < |es| ==> HasType(es[j].value, es[j].ty))
            && (r.Ok? ==> forall j :: i <= j < |es| ==> r.value[j - i] == Constant(es[j].ty, es[j].value))
    decreases |es| - i
  {
    if i < |es| { LiteralsResolve(cat, es, i + 1, scope, inlined, guard); }
  }

  /** An IN resolves its operands, in order, and then takes one of its forms. */
  lemma {:induction false} InUnfolds(cat: Catalog, e: UExpr, scope: Scope, inlined: bool, guard: set<string>)
    requires e.UCall? && e.name == "in"
    ensures Resolve(cat, e, scope, inlined, guard).Ok? ==>
              ResolveFrom(cat, e.inputs, 0, scope, inlined, guard).Ok? && e.inputs != []
    ensures var r := ResolveFrom(cat, e.inputs, 0, scope, inlined, guard);
            r.Ok? && e.inputs != [] ==>
              && (IsConstantIn(e.inputs) ==> ConstantTail(r.value))
              && Resolve(cat, e, scope, inlined, guard) == ResolveInForms(cat, IsConstantIn(e.inputs), r.value)
  {
    if IsConstantIn(e.inputs) {
      ConstantInUnfolds(cat, e, scope, inlined, guard);
    } else {
      var r := ResolveFrom(cat, e.inputs, 0, scope, inlined, guard);
      if r.Ok? {
        assert ResolveForm(cat, "in", r.value) == Lift(ResolveIn(Some(cat.superType), r.value));
        assert ResolveCall(cat, e, "in", r.value, inlined, guard) == ResolveIn(Some(cat.superType), r.value);
      }
    }
  }

  lemma {:induction false} ConstantInUnfolds(cat: Catalog, e: UExpr, scope: Scope, inlined: bool, guard: set<string>)
    requires e.UCall? && e.name == "in" && IsConstantIn(e.inputs)
    ensures var r := ResolveFrom(cat, e.inputs, 0, scope, inlined, guard);
            && (Resolve(cat, e, scope, inlined, guard).Ok? ==> r.Ok?)
            && (r.Ok? ==>
                  && ConstantTail(r.value)
                  && Resolve(cat, e, scope, inlined, guard)
                  == ResolveConstantIn(Some(cat.superType), r.value[0], r.value[1..]))
  {
    var inputs := e.inputs;
    forall j | 1 <= j < |inputs| ensures inputs[j].Literal? && inputs[1..][j - 1] == inputs[j] {
      assert inputs[1..][j - 1].Literal?;
    }
    LiteralsResolve(cat, inputs, 1, scope, inlined, guard);
    var first, rest := Resolve(cat, inputs[0], scope, inlined, guard), ResolveFrom(cat, inputs, 1, scope, inlined, guard);
    var cs := Constants(inputs[1..]);
    assert rest.Ok? <==> cs.Ok?;
    if rest.Ok? { assert rest.value == cs.value; }
    if first.Ok? && rest.Ok? { assert ([first.value] + rest.value)[1..] == rest.value; }
  }

  /** The scope a body is resolved in: its arguments, or its parameters with their types. */
  function BodyScope(f: SqlFunction, args: seq<Expr>, inlined: bool): Scope
    requires |f.argumentNames| == |args|
  {
    Scope(Bind(f.argumentNames, if inlined then args else Params(f.argumentNames, args)), map[])
  }

  /** Every IN the inlined resolution meets, in called bodies too, has operands that coerce alike. */
  ghost predicate CommutesIn(cat: Catalog, e: UExpr, scope: Scope, s: map<string, Expr>, guard: set<string>)
    decreases cat.sqlNames - guard, e, 1, 0
  {
    match e
    case Field(input, _) => CommutesIn(cat, input, scope, s, guard)
    case UCast(_, _, input) => CommutesIn(cat, input, scope, s, guard)
    case URow(_, inputs) => forall i :: 0 <= i < |inputs| ==> CommutesIn(cat, inputs[i], scope, s, guard)
    case UCall(name, inputs) =>
      && (forall i :: 0 <= i < |inputs| ==> CommutesIn(cat, inputs[i], scope, s, guard))
      && var r := ResolveFrom(cat, inputs, 0, scope, true, guard);
         r.Ok? ==> if name == "in" then InAlike(cat, r.value, s) else BodyCommutes(cat, e, name, r.value, s, guard)
    case _ => true
  }

  /** So it is in the body a call of a SQL function inlines. */
  ghost predicate BodyCommutes(cat: Catalog, e: UExpr, name: string, inputs: seq<Expr>, s: map<string, Expr>, guard: set<string>)
    decreases cat.sqlNames - guard, e, 0, 0
  {
    var f := cat.sqlFunction(name, Types(inputs));
    f.Some? && Inlinable(cat, name, f.value, inputs, guard) ==>
      assert cat.sqlNames - (guard + {name}) < cat.sqlNames - guard by { assert name in cat.sqlNames - guard; }
      CommutesIn(cat, f.value.body, BodyScope(f.value, CastArguments(inputs, f.value.argumentTypes), true), s, guard + {name})
  }

  /** Nothing is rejected before the body is resolved. */
  predicate Inlinable(cat: Catalog, name: string, f: SqlFunction, inputs: seq<Expr>, guard: set<string>) {
    name !in guard && name in cat.sqlNames && CheckSignature(f, inputs).Ok? && ResolveForm(cat, name, inputs) == Ok(None)
  }

  /** Resolving with expressions substituted into the scope is substituting into the resolved
      expression: the resolver decides by types and literals, not by what a name is bound to. */
  lemma {:induction false} ResolveCommutes(cat: Catalog, e: UExpr, scope: Scope, s: map<string, Expr>, guard: set<string>)
    requires CommutesIn(cat, e, scope, s, guard) && SubqueryFree(s) && WellBoundScope(scope, s)
    requires Resolve(cat, e, scope, true, guard).Ok?
    ensures var t := Resolve(cat, e, scope, true, guard).value;
            WellBound(t, s) && Resolve(cat, e, SubstScope(scope, s), true, guard) == Ok(Subst(t, s))
    decreases cat.sqlNames - guard, e, 1, 0
  {
    match e
    case Field(input, name) =>
      if !(input.Column? && (input.name, name) in scope.qualified) {
        ResolveCommutes(cat, input, scope, s, guard);
        FieldCommutes(Resolve(cat, input, scope, true, guard).value, name, s);
      }
    case UCall(name, inputs) =>
      if name == "in" {
        InCommutes(cat, e, scope, s, guard);
      } else {
        ResolveFromCommutes(cat, inputs, 0, scope, s, guard);
        CallCommutes(cat, e, name, ResolveFrom(cat, inputs, 0, scope, true, guard).value, s, guard);
      }
    case UCast(ty, tryCast, input) =>
      ResolveCommutes(cat, input, scope, s, guard);
      var t := Resolve(cat, input, scope, true, guard).value;
      SpecialCommutes(ty, if tryCast then TryCast else Cast, [t], s);
      assert SubstAll([t], s) == [Subst(t, s)];
    case URow(names, inputs) =>
      ResolveFromCommutes(cat, inputs, 0, scope, s, guard);
      var ts := ResolveFrom(cat, inputs, 0, scope, true, guard).value;
      SpecialCommutes(Row(names, Types(ts)), RowConstructor, ts, s);
      SubstTypes(ts, s);
    case _ =>
  }

  lemma {:induction false} InCommutes(cat: Catalog, e: UExpr, scope: Scope, s: map<string, Expr>, guard: set<string>)
    requires e.UCall? && e.name == "in" && CommutesIn(cat, e, scope, s, guard) && SubqueryFree(s) && WellBoundScope(scope, s)
    requires Resolve(cat, e, scope, true, guard).Ok?
    ensures var t := Resolve(cat, e, scope, true, guard).value;
            WellBound(t, s) && Resolve(cat, e, SubstScope(scope, s), true, guard) == Ok(Subst(t, s))
    decreases cat.sqlNames - guard, e, 0, 1
  {
    InUnfolds(cat, e, scope, true, guard);
    InUnfolds(cat, e, SubstScope(scope, s), true, guard);
    ResolveFromCommutes(cat, e.inputs, 0, scope, s, guard);
    InFormsCommute(cat, IsConstantIn(e.inputs), ResolveFrom(cat, e.inputs, 0, scope, true, guard).value, s);
  }

  lemma {:induction false} ResolveFromCommutes(
      cat: Catalog, es: seq<UExpr>, i: nat, scope: Scope, s: map<string, Expr>, guard: set<string>)
    requires i <= |es| && forall j :: 0 <= j < |es| ==> CommutesIn(cat, es[j], scope, s, guard)
    requires SubqueryFree(s) && WellBoundScope(scope, s)
    requires ResolveFrom(cat, es, i, scope, true, guard).Ok?
    ensures var ts := ResolveFrom(cat, es, i, scope, true, guard).value;
            AllWellBound(ts, s) && ResolveFrom(cat, es, i, SubstScope(scope, s), true, guard) == Ok(SubstAll(ts, s))
    decreases cat.sqlNames - guard, es, 0, |es| - i
  {
    if i < |es| {
      ResolveCommutes(cat, es[i], scope, s, guard);
      ResolveFromCommutes(cat, es, i + 1, scope, s, guard);
      SubstCons(Resolve(cat, es[i], scope, true, guard).value, ResolveFrom(cat, es, i + 1, scope, true, guard).value, s);
    }
  }

  lemma {:induction false} SubstCons(head: Expr, tail: seq<Expr>, s: map<string, Expr>)
    requires WellBound(head, s) && AllWellBound(tail, s)
    ensures SubstAll([head] + tail, s) == [Subst(head, s)] + SubstAll(tail, s) && AllWellBound([head] + tail, s)
  {
  }

  lemma {:induction false} CallCommutes(
      cat: Catalog, e: UExpr, name: string, inputs: seq<Expr>, s: map<string, Expr>, guard: set<string>)
    requires AllWellBound(inputs, s) && BodyCommutes(cat, e, name, inputs, s, guard) && SubqueryFree(s) && name != "in"
    requires ResolveCall(cat, e, name, inputs, true, guard).Ok?
    ensures var t := ResolveCall(cat, e, name, inputs, true, guard).value;
            WellBound(t, s) && ResolveCall(cat, e, name, SubstAll(inputs, s), true, guard) == Ok(Subst(t, s))
    decreases cat.sqlNames - guard, e, 0, 0
  {
    FormCommutes(cat, name, inputs, s);
    SubstTypes(inputs, s);
    if ResolveForm(cat, name, inputs).value.None? {
      var f := cat.sqlFunction(name, Types(inputs));
      if f.None? {
        ScalarCommutes(cat, name, inputs, s);
      } else {
        var names, types := f.value.argumentNames, f.value.argumentTypes;
        var args := CastArguments(inputs, types);
        ArgumentsCommute(inputs, types, s);
        BindCommutes(names, args, s);
        var bound := Scope(Bind(names, args), map[]);
        assert SubstScope(bound, s) == Scope(Bind(names, SubstAll(args, s)), map[]);
        assert cat.sqlNames - (guard + {name}) < cat.sqlNames - guard by { assert name in cat.sqlNames - guard; }
        ResolveCommutes(cat, f.value.body, bound, s, guard + {name});
        FinishCommutes(cat, f.value, args, Resolve(cat, f.value.body, bound, true, guard + {name}).value, s);
      }
    }
  }

  // ----- What is looked up is evaluated.

  /** The expression occurs as, or under the inputs of, the other. */
  predicate Contains(e: Expr, a: Expr) {
    e == a ||
    match e
    case Call(_, _, inputs) => exists i :: 0 <= i < |inputs| && Contains(inputs[i], a)
    case Special(_, _, inputs) => exists i :: 0 <= i < |inputs| && Contains(inputs[i], a)
    case CoercedSubquery(_, query) => Contains(query, a)
    case SqlCall(_, _, args, _, _) => exists i :: 0 <= i < |args| && Contains(args[i], a)
    case _ => false
  }

  lemma {:induction false} ContainsTrans(e: Expr, a: Expr, b: Expr)
    requires Contains(e, a) && Contains(a, b)
    ensures Contains(e, b)
  {
    if e != a {
      match e
      case Call(_, _, inputs) =>
        var i :| 0 <= i < |inputs| && Contains(inputs[i], a);
        ContainsTrans(inputs[i], a, b);
      case Special(_, _, inputs) =>
        var i :| 0 <= i < |inputs| && Contains(inputs[i], a);
        ContainsTrans(inputs[i], a, b);
      case CoercedSubquery(_, query) => ContainsTrans(query, a, b);
      case SqlCall(_, _, args, _, _) =>
        var i :| 0 <= i < |args| && Contains(args[i], a);
        ContainsTrans(args[i], a, b);
    }
  }

  lemma {:induction false} ContainedSubquery(e: Expr, a: Expr)
    requires Contains(e, a) && ContainsSubquery(a)
    ensures ContainsSubquery(e)
  {
    if e != a {
      match e
      case Call(_, _, inputs) =>
        var i :| 0 <= i < |inputs| && Contains(inputs[i], a);
        ContainedSubquery(inputs[i], a);
      case Special(_, _, inputs) =>
        var i :| 0 <= i < |inputs| && Contains(inputs[i], a);
        ContainedSubquery(inputs[i], a);
      case CoercedSubquery(_, _) =>
      case SqlCall(_, _, args, _, _) =>
        var i :| 0 <= i < |args| && Contains(args[i], a);
        ContainedSubquery(args[i], a);
    }
  }

  predicate LazyForm(form: Form) {
    form == And || form == Or || form == If || form == Coalesce || form == Try
  }

  /** Every part that is written is evaluated. A call evaluates all its arguments. */
  predicate Strict(e: Expr) {
    match e
    case Call(_, _, inputs) => forall i :: 0 <= i < |inputs| ==> Strict(inputs[i])
    case Special(_, form, inputs) => !LazyForm(form) && forall i :: 0 <= i < |inputs| ==> Strict(inputs[i])
    case CoercedSubquery(_, query) => Strict(query)
    case SqlCall(_, _, args, _, _) => forall i :: 0 <= i < |args| ==> Strict(args[i])
    case _ => true
  }

  /** An error anywhere in a strict expression is its outcome. */
  lemma {:induction false} ContainedError(engine: Engine, e: Expr, a: Expr, env: Env)
    requires Strict(e) && Contains(e, a) && Eval(engine, a, env).Err?
    ensures Eval(engine, e, env).Err?
  {
    if e != a {
      match e
      case Call(_, name, inputs) =>
        var i :| 0 <= i < |inputs| && Contains(inputs[i], a);
        ContainedError(engine, inputs[i], a, env);
        assert EvalAll(engine, inputs, env)[i].Err?;
      case Special(ty, form, inputs) =>
        var i :| 0 <= i < |inputs| && Contains(inputs[i], a);
        ContainedError(engine, inputs[i], a, env);
        assert EvalAll(engine, inputs, env)[i].Err?;
      case CoercedSubquery(_, query) => ContainedError(engine, query, a, env);
      case SqlCall(_, _, args, _, _) =>
        var i :| 0 <= i < |args| && Contains(args[i], a);
        ContainedError(engine, args[i], a, env);
        assert EvalAll(engine, args, env)[i].Err?;
    }
  }

  lemma {:induction false} CoercedContains(inputs: seq<Expr>, coercions: seq<Option<Type>>, i: nat, a: Expr)
    requires ApplyCoercions(inputs, coercions).Ok? && i < |inputs| && Contains(inputs[i], a)
    ensures i < |ApplyCoercions(inputs, coercions).value| && Contains(ApplyCoercions(inputs, coercions).value[i], a)
  {
    var c := ApplyCoercions(inputs, coercions).value[i];
    if coercions != [] && coercions[i].Some? { assert Contains(c.inputs[0], a); }
  }

  /** What is under a cast; the expression itself if it is none. */
  function Peeled(e: Expr): Expr {
    if IsCast(e) then e.inputs[0] else e
  }

  lemma {:induction false} PeeledContains(e: Expr, a: Expr)
    requires Contains(Peeled(e), a)
    ensures Contains(e, a)
  {
    if IsCast(e) { assert Contains(e.inputs[0], a); }
  }

  lemma {:induction false} CoerceOneContains(e: Expr, ty: Type, a: Expr)
    requires Contains(Peeled(e), a) && !e.Constant?
    ensures Contains(CoerceOne(e, ty), a) && !CoerceOne(e, ty).Constant?
  {
    PeeledContains(e, a);
    var c := CoerceOne(e, ty);
    if c != e && c.Special? { assert c.inputs[0] == Peeled(e); }
  }

  lemma {:induction false} FormContains(cat: Catalog, name: string, inputs: seq<Expr>, i: nat, a: Expr)
    requires name != "in" && ResolveForm(cat, name, inputs).Ok? && ResolveForm(cat, name, inputs).value.Some?
    requires i < |inputs| && Contains(inputs[i], a) && !inputs[i].Constant?
    ensures var r := ResolveForm(cat, name, inputs).value.value; Contains(r, a) && r.Special? && !IsCast(r)
  {
    var r := ResolveForm(cat, name, inputs).value.value;
    if name == "and" || name == "or" || name == "coalesce" {
      CoercedContains(inputs, cat.form(name, Types(inputs)).value.coercions, i, a);
    } else if name == "if" {
      var three := WithNullElse(inputs);
      CoercedContains(three, cat.form(name, Types(three)).value.coercions, i, a);
    } else {
      OtherFormContains(cat, name, inputs, i, a);
    }
  }

  lemma {:induction false} OtherFormContains(cat: Catalog, name: string, inputs: seq<Expr>, i: nat, a: Expr)
    requires name !in {"in", "and", "or", "coalesce", "if"}
    requires ResolveForm(cat, name, inputs).Ok? && ResolveForm(cat, name, inputs).value.Some?
    requires i < |inputs| && Contains(inputs[i], a) && !inputs[i].Constant?
    ensures var r := ResolveForm(cat, name, inputs).value.value; Contains(r, a) && r.Special? && !IsCast(r)
  {
    var r := ResolveForm(cat, name, inputs).value.value;
    if name == "subscript" && inputs[0].ty.Row? {
      assert i == 0;
      assert Contains(r.inputs[0], a);
    } else {
      assert Contains(r.inputs[i], a);
    }
  }

  lemma {:induction false} InFormsContain(cat: Catalog, constant: bool, ts: seq<Expr>, i: nat, a: Expr)
    requires ts != [] && (constant ==> ConstantTail(ts)) && ResolveInForms(cat, constant, ts).Ok?
    requires i < |ts| && Contains(Peeled(ts[i]), a) && !ts[i].Constant?
    ensures var r := ResolveInForms(cat, constant, ts).value; Contains(r, a) && r.Special? && !IsCast(r)
  {
    var common := CommonType(cat.superType, ts[0].ty, Types(ts[1..]));
    var r := ResolveInForms(cat, constant, ts).value;
    assert [ts[0]] + ts[1..] == ts;
    if common.Some? { CoerceOneContains(ts[i], common.value, a); }
    if constant { assert i == 0; }
    assert Contains(r.inputs[i], a);
  }

  /** Every name an expression looks up occurs in what it resolves to, through any depth of
      inlining, because every argument of an inlined function must be used. What occurs is what
      the name stands for, save a cast on top, which IN may replace. */
  lemma {:induction false} UsedIsContained(
      cat: Catalog, e: UExpr, scope: Scope, inlined: bool, guard: set<string>, x: string)
    requires Resolve(cat, e, scope, inlined, guard).Ok?
    requires x in UsedColumns(e) && x in scope.columns && !scope.columns[x].Constant?
    requires scope.qualified == map[]
    ensures var t := Resolve(cat, e, scope, inlined, guard).value;
            !t.Constant? && Contains(Peeled(t), Peeled(scope.columns[x])) && Contains(t, Peeled(scope.columns[x]))
    decreases cat.sqlNames - guard, e, 1, 0
  {
    var a := Peeled(scope.columns[x]);
    var t := Resolve(cat, e, scope, inlined, guard).value;
    match e {
      case Column(_) =>
      case Field(input, name) =>
        UsedIsContained(cat, input, scope, inlined, guard, x);
        assert Contains(t.inputs[0], a);
      case UCast(_, _, input) =>
        UsedIsContained(cat, input, scope, inlined, guard, x);
        assert Contains(t.inputs[0], a);
      case URow(_, inputs) =>
        var i := UsedInSome(cat, inputs, scope, inlined, guard, x);
        PeeledContains(t.inputs[i], a);
      case UCall(name, inputs) =>
        UsedInArguments(cat, e, scope, inlined, guard, x);
    }
    PeeledContains(t, a);
  }

  lemma {:induction false} UsedInArguments(
      cat: Catalog, e: UExpr, scope: Scope, inlined: bool, guard: set<string>, x: string)
    requires e.UCall? && Resolve(cat, e, scope, inlined, guard).Ok?
    requires x in UsedColumns(e) && x in scope.columns && !scope.columns[x].Constant?
    requires scope.qualified == map[]
    ensures var t := Resolve(cat, e, scope, inlined, guard).value;
            !t.Constant? && Contains(Peeled(t), Peeled(scope.columns[x]))
    decreases cat.sqlNames - guard, e, 0, 2
  {
    var a := Peeled(scope.columns[x]);
    if e.name == "in" { InUnfolds(cat, e, scope, inlined, guard); }
    var ts := ResolveFrom(cat, e.inputs, 0, scope, inlined, guard).value;
    var i := UsedInSome(cat, e.inputs, scope, inlined, guard, x);
    if e.name == "in" {
      InFormsContain(cat, IsConstantIn(e.inputs), ts, i, a);
    } else {
      UsedInCall(cat, e, e.name, ts, inlined, guard, i, a);
    }
  }

  lemma {:induction false} UsedInSome(
      cat: Catalog, es: seq<UExpr>, scope: Scope, inlined: bool, guard: set<string>, x: string) returns (i: nat)
    requires ResolveFrom(cat, es, 0, scope, inlined, guard).Ok?
    requires (exists k :: 0 <= k < |es| && x in UsedColumns(es[k])) && x in scope.columns && !scope.columns[x].Constant?
    requires scope.qualified == map[]
    ensures i < |es|
    ensures var t := ResolveFrom(cat, es, 0, scope, inlined, guard).value[i];
            !t.Constant? && Contains(Peeled(t), Peeled(scope.columns[x]))
    decreases cat.sqlNames - guard, es, 0, |es| + 1
  {
    i :| 0 <= i < |es| && x in UsedColumns(es[i]);
    UsedInInput(cat, es, 0, i, scope, inlined, guard, x);
  }

  lemma {:induction false} UsedInInput(
      cat: Catalog, es: seq<UExpr>, i: nat, j: nat, scope: Scope, inlined: bool, guard: set<string>, x: string)
    requires i <= j < |es| && ResolveFrom(cat, es, i, scope, inlined, guard).Ok?
    requires x in UsedColumns(es[j]) && x in scope.columns && !scope.columns[x].Constant?
    requires scope.qualified == map[]
    ensures var t := ResolveFrom(cat, es, i, scope, inlined, guard).value[j - i];
            !t.Constant? && Contains(Peeled(t), Peeled(scope.columns[x]))
    decreases cat.sqlNames - guard, es, 0, |es| - i
  {
    if i == j {
      UsedIsContained(cat, es[i], scope, inlined, guard, x);
    } else {
      UsedInInput(cat, es, i + 1, j, scope, inlined, guard, x);
    }
  }

  lemma {:induction false} UsedInCall(
      cat: Catalog, e: UExpr, name: string, inputs: seq<Expr>, inlined: bool, guard: set<string>, i: nat, a: Expr)
    requires name != "in" && ResolveCall(cat, e, name, inputs, inlined, guard).Ok?
    requires i < |inputs| && Contains(Peeled(inputs[i]), a) && !inputs[i].Constant?
    ensures var t := ResolveCall(cat, e, name, inputs, inlined, guard).value;
            !t.Constant? && Contains(Peeled(t), a)
    decreases cat.sqlNames - guard, e, 0, 1
  {
    var t := ResolveCall(cat, e, name, inputs, inlined, guard).value;
    PeeledContains(inputs[i], a);
    if ResolveForm(cat, name, inputs).value.Some? {
      FormContains(cat, name, inputs, i, a);
    } else if cat.sqlFunction(name, Types(inputs)).None? {
      CoercedContains(inputs, cat.scalar(name, Types(inputs)).value.coercions, i, a);
    } else {
      UsedInSql(cat, e, name, cat.sqlFunction(name, Types(inputs)).value, inputs, inlined, guard, i, a);
    }
  }

  lemma {:induction false} UsedInSql(
      cat: Catalog, e: UExpr, name: string, f: SqlFunction, inputs: seq<Expr>, inlined: bool, guard: set<string>, i: nat, a: Expr)
    requires cat.sqlFunction(name, Types(inputs)) == Some(f) && ResolveSqlFunction(cat, e, name, inputs, inlined, guard).Ok?
    requires i < |inputs| && Contains(Peeled(inputs[i]), a) && !inputs[i].Constant?
    ensures var t := ResolveSqlFunction(cat, e, name, inputs, inlined, guard).value;
            t.Some? && !t.value.Constant? && Contains(Peeled(t.value), a)
    decreases cat.sqlNames - guard, e, 0, 0
  {
    SqlUnfolds(cat, e, name, f, inputs, inlined, guard);
    PeeledContains(inputs[i], a);
    var args := CastArguments(inputs, f.argumentTypes);
    if inlined {
      assert cat.sqlNames - (guard + {name}) < cat.sqlNames - guard by { assert name in cat.sqlNames - guard; }
      UsedInBody(cat, f, args, guard + {name}, i, a);
    } else {
      PeeledContains(args[i], a);
      CallOfBody(cat, f, args, guard + {name}, i, a);
    }
  }

  lemma {:induction false} CallOfBody(cat: Catalog, f: SqlFunction, args: seq<Expr>, guard: set<string>, i: nat, a: Expr)
    requires |f.argumentNames| == |args| && ResolveBody(cat, f, args, false, guard).Ok? && i < |args| && Contains(args[i], a)
    ensures var t := ResolveBody(cat, f, args, false, guard).value.value; t.SqlCall? && Contains(t, a)
  {
    var body := Resolve(cat, f.body, BodyScope(f, args, false), false, guard).value;
    FinishIsCall(cat, f, args, body);
    assert Contains(FinishBody(cat, f, args, body, false).value.args[i], a);
  }

  lemma {:induction false} FinishIsCall(cat: Catalog, f: SqlFunction, args: seq<Expr>, body: Expr)
    requires FinishBody(cat, f, args, body, false).Ok?
    ensures var t := FinishBody(cat, f, args, body, false).value; t.SqlCall? && t.args == args
  {
  }

  lemma {:induction false} UsedInBody(cat: Catalog, f: SqlFunction, args: seq<Expr>, guard: set<string>, i: nat, a: Expr)
    requires |f.argumentNames| == |args| && Distinct(f.argumentNames) && ResolveBody(cat, f, args, true, guard).Ok?
    requires i < |args| && Contains(Peeled(args[i]), a) && !args[i].Constant?
    ensures var t := ResolveBody(cat, f, args, true, guard).value.value; !t.Constant? && Contains(Peeled(t), a)
    decreases cat.sqlNames - guard, f.body, 3, 0
  {
    var bound := BodyScope(f, args, true);
    var body := Resolve(cat, f.body, bound, true, guard).value;
    BindAt(f.argumentNames, args, i);
    UsedIsContained(cat, f.body, bound, true, guard, f.argumentNames[i]);
    ContainsTrans(Peeled(body), Peeled(args[i]), a);
    FinishContains(cat, f, args, body, a);
  }

  lemma {:induction false} FinishContains(cat: Catalog, f: SqlFunction, args: seq<Expr>, body: Expr, a: Expr)
    requires FinishBody(cat, f, args, body, true).Ok? && Contains(Peeled(body), a) && !body.Constant?
    ensures var t := FinishBody(cat, f, args, body, true).value; !t.Constant? && Contains(Peeled(t), a)
  {
    PeeledContains(body, a);
    var result := CastResult(cat, body, f.returnType).value;
    PeeledContains(result, a);
    var guarded := NullGuard(result, args);
    if args != [] { assert Contains(guarded.inputs[2], a); }
  }

  // ----- A body that resolves over its parameters resolves when inlined.

  /** Same type, the same literal, and no subquery the reference does not have. */
  predicate Matches(t: Expr, u: Expr) {
    t.ty == u.ty && (u.Constant? ==> t == u) && (ContainsSubquery(t) ==> ContainsSubquery(u))
  }

  ghost predicate AllMatch(ts: seq<Expr>, us: seq<Expr>) {
    |ts| == |us| && forall i :: 0 <= i < |ts| ==> Matches(ts[i], us[i])
  }

  lemma {:induction false} MatchTypes(ts: seq<Expr>, us: seq<Expr>)
    requires AllMatch(ts, us)
    ensures Types(ts) == Types(us)
  {
  }

  lemma {:induction false} SpecialMatches(ty: Type, form: Form, ts: seq<Expr>, us: seq<Expr>)
    requires AllMatch(ts, us) && ValidSpecial(ty, form, us)
    ensures ValidSpecial(ty, form, ts) && Matches(Special(ty, form, ts), Special(ty, form, us))
  {
    MatchTypes(ts, us);
    var types := Types(us);
    assert forall i :: 0 <= i < |ts| ==> ts[i].ty == types[i];
  }

  lemma {:induction false} CoercionsMatch(ts: seq<Expr>, us: seq<Expr>, coercions: seq<Option<Type>>)
    requires AllMatch(ts, us) && ApplyCoercions(us, coercions).Ok?
    ensures ApplyCoercions(ts, coercions).Ok?
    ensures AllMatch(ApplyCoercions(ts, coercions).value, ApplyCoercions(us, coercions).value)
  {
    forall i | 0 <= i < |ts| && coercions != []
      ensures Matches(ApplyCoercions(ts, coercions).value[i], ApplyCoercions(us, coercions).value[i])
    {
      if coercions[i].Some? && ContainsSubquery(CastTo(coercions[i].value, ts[i])) {
        assert ContainsSubquery(CastTo(coercions[i].value, us[i]).inputs[0]);
      }
    }
  }

  lemma {:induction false} CoercedFormMatches(cat: Catalog, form: Form, name: string, ts: seq<Expr>, us: seq<Expr>)
    requires AllMatch(ts, us) && ResolveFormWithCoercions(cat, form, name, us).Ok?
    ensures ResolveFormWithCoercions(cat, form, name, ts).Ok?
    ensures Matches(ResolveFormWithCoercions(cat, form, name, ts).value, ResolveFormWithCoercions(cat, form, name, us).value)
  {
    MatchTypes(ts, us);
    var signature := cat.form(name, Types(us)).value;
    CoercionsMatch(ts, us, signature.coercions);
    SpecialMatches(signature.returnType, form,
      ApplyCoercions(ts, signature.coercions).value, ApplyCoercions(us, signature.coercions).value);
  }

  lemma {:induction false} FieldMatches(t: Expr, u: Expr, name: string)
    requires Matches(t, u) && ResolveField(u, name).Ok?
    ensures ResolveField(t, name).Ok? && Matches(ResolveField(t, name).value, ResolveField(u, name).value)
  {
    var r := ResolveField(u, name).value;
    SpecialMatches(r.ty, Dereference, [t, r.inputs[1]], r.inputs);
  }

  lemma {:induction false} FormMatches(cat: Catalog, name: string, ts: seq<Expr>, us: seq<Expr>)
    requires AllMatch(ts, us) && name != "in" && ResolveForm(cat, name, us).Ok?
    ensures ResolveForm(cat, name, ts).Ok?
    ensures ResolveForm(cat, name, ts).value.Some? == ResolveForm(cat, name, us).value.Some?
    ensures ResolveForm(cat, name, us).value.Some? ==>
              Matches(ResolveForm(cat, name, ts).value.value, ResolveForm(cat, name, us).value.value)
  {
    MatchTypes(ts, us);
    if name == "and" {
      CoercedFormMatches(cat, And, name, ts, us);
    } else if name == "or" {
      CoercedFormMatches(cat, Or, name, ts, us);
    } else if name == "coalesce" {
      CoercedFormMatches(cat, Coalesce, name, ts, us);
    } else if name == "if" {
      CoercedFormMatches(cat, If, name, WithNullElse(ts), WithNullElse(us));
    } else if name == "row_constructor" {
      SpecialMatches(Row(seq(|us|, i => ""), Types(us)), RowConstructor, ts, us);
      assert seq(|ts|, i => "") == seq(|us|, i => "");
    } else if name == "try" {
      SpecialMatches(us[0].ty, Try, ts, us);
    } else if name == "subscript" && |us| > 0 && us[0].ty.Row? {
      var r := ResolveSubscript(us).value;
      SpecialMatches(r.ty, Dereference, [ts[0], r.inputs[1]], r.inputs);
    }
  }

  lemma {:induction false} ArgumentsMatch(ts: seq<Expr>, us: seq<Expr>, types: seq<Type>)
    requires AllMatch(ts, us) && |types| == |us|
    ensures |CastArguments(ts, types)| == |CastArguments(us, types)|
    ensures forall i :: 0 <= i < |us| ==> CastArguments(ts, types)[i].ty == CastArguments(us, types)[i].ty
    ensures forall i :: 0 <= i < |us| && ContainsSubquery(CastArguments(ts, types)[i]) ==>
              ContainsSubquery(CastArguments(us, types)[i])
  {
    forall i | 0 <= i < |us| && ContainsSubquery(CastArguments(ts, types)[i])
      ensures ContainsSubquery(CastArguments(us, types)[i])
    {
      if CastArguments(us, types)[i] != us[i] { assert ContainsSubquery(CastArguments(us, types)[i].inputs[0]); }
    }
  }

  /** The parameters of a body, under the arguments bound to them, are the arguments. */
  lemma {:induction false} ParamsBecomeArguments(names: seq<string>, args: seq<Expr>, all: map<string, Expr>)
    requires |names| == |args| && Distinct(names)
    requires forall i :: 0 <= i < |names| ==> names[i] in all && all[names[i]] == args[i]
    ensures SubstMap(Bind(names, Params(names, args)), all) == Bind(names, args)
    ensures WellBoundScope(Scope(Bind(names, Params(names, args)), map[]), all)
  {
    var params := Bind(names, Params(names, args));
    forall x | x in params ensures Subst(params[x], all) == Bind(names, args)[x] && WellBound(params[x], all) {
      ParamBecomesArgument(names, args, all, x);
    }
    assert SubstMap(params, all) == Bind(names, args);
  }

  lemma {:induction false} ParamBecomesArgument(names: seq<string>, args: seq<Expr>, all: map<string, Expr>, x: string)
    requires |names| == |args| && Distinct(names) && x in Bind(names, args)
    requires forall i :: 0 <= i < |names| ==> names[i] in all && all[names[i]] == args[i]
    ensures var p := Bind(names, Params(names, args))[x]; Subst(p, all) == Bind(names, args)[x] && WellBound(p, all)
  {
    var i :| 0 <= i < |names| && names[i] == x;
    BindAt(names, args, i);
    BindAt(names, Params(names, args), i);
  }

  lemma {:induction false} BoundSubqueryFree(names: seq<string>, args: seq<Expr>)
    requires |names| == |args| && Distinct(names) && forall i :: 0 <= i < |args| ==> !ContainsSubquery(args[i])
    ensures SubqueryFree(Bind(names, args))
  {
    forall x | x in Bind(names, args) ensures !ContainsSubquery(Bind(names, args)[x]) {
      var i :| 0 <= i < |names| && names[i] == x;
      BindAt(names, args, i);
    }
  }

  lemma {:induction false} ParamsSubstitute(names: seq<string>, args: seq<Expr>)
    requires |names| == |args| && Distinct(names)
    ensures var params := Scope(Bind(names, Params(names, args)), map[]);
            WellBoundScope(params, Bind(names, args)) &&
            SubstScope(params, Bind(names, args)) == Scope(Bind(names, args), map[])
  {
    var all := Bind(names, args);
    forall i | 0 <= i < |names| ensures names[i] in all && all[names[i]] == args[i] { BindAt(names, args, i); }
    ParamsBecomeArguments(names, args, all);
  }

  /** A body resolved over its parameters: what the inlined body is a substitution into. */
  lemma {:induction false} InlinedBody(cat: Catalog, f: SqlFunction, args: seq<Expr>, params: Scope, guard: set<string>)
    requires |f.argumentNames| == |args| && Distinct(f.argumentNames)
    requires forall i :: 0 <= i < |args| ==> !ContainsSubquery(args[i])
    requires params == BodyScope(f, args, false) && CommutesIn(cat, f.body, params, Bind(f.argumentNames, args), guard)
    requires Resolve(cat, f.body, params, true, guard).Ok?
    ensures var all, b := Bind(f.argumentNames, args), Resolve(cat, f.body, params, true, guard).value;
            && WellBound(b, all) && SubqueryFree(all)
            && Resolve(cat, f.body, Scope(all, map[]), true, guard) == Ok(Subst(b, all))
  {
    ParamsSubstitute(f.argumentNames, args);
    BoundSubqueryFree(f.argumentNames, args);
    ResolveCommutes(cat, f.body, params, Bind(f.argumentNames, args), guard);
  }

  ghost predicate ScopesMatch(p: Scope, q: Scope) {
    && p.columns.Keys == q.columns.Keys && (forall x :: x in p.columns ==> Matches(p.columns[x], q.columns[x]))
    && p.qualified.Keys == q.qualified.Keys && (forall x :: x in p.qualified ==> Matches(p.qualified[x], q.qualified[x]))
  }

  /** Whatever resolves with calls, and has no subquery, also resolves inlined: even over other
      expressions of the same types, as a body does over its arguments. */
  lemma {:induction false} ReferenceInlines(cat: Catalog, e: UExpr, p: Scope, q: Scope, guard: set<string>)
    requires ScopesMatch(p, q)
    requires Resolve(cat, e, q, false, guard).Ok? && !ContainsSubquery(Resolve(cat, e, q, false, guard).value)
    ensures Resolve(cat, e, p, true, guard).Ok?
    ensures Matches(Resolve(cat, e, p, true, guard).value, Resolve(cat, e, q, false, guard).value)
    decreases cat.sqlNames - guard, e, 1, 0
  {
    var u := Resolve(cat, e, q, false, guard).value;
    match e
    case Field(input, name) =>
      if !(input.Column? && (input.name, name) in q.qualified) {
        assert !ContainsSubquery(u.inputs[0]);
        ReferenceInlines(cat, input, p, q, guard);
        FieldMatches(Resolve(cat, input, p, true, guard).value, Resolve(cat, input, q, false, guard).value, name);
      }
    case UCall(name, inputs) =>
      ReferenceInlinesArguments(cat, e, p, q, guard);
    case UCast(ty, tryCast, input) =>
      assert !ContainsSubquery(u.inputs[0]);
      ReferenceInlines(cat, input, p, q, guard);
      SpecialMatches(ty, if tryCast then TryCast else Cast,
        [Resolve(cat, input, p, true, guard).value], [Resolve(cat, input, q, false, guard).value]);
    case URow(names, inputs) =>
      var us := ResolveFrom(cat, inputs, 0, q, false, guard).value;
      assert forall i :: 0 <= i < |us| ==> !ContainsSubquery(u.inputs[i]);
      ReferenceInlinesFrom(cat, inputs, 0, p, q, guard);
      var ts := ResolveFrom(cat, inputs, 0, p, true, guard).value;
      MatchTypes(ts, us);
      SpecialMatches(Row(names, Types(us)), RowConstructor, ts, us);
    case _ =>
  }

  lemma {:induction false} ReferenceInlinesArguments(cat: Catalog, e: UExpr, p: Scope, q: Scope, guard: set<string>)
    requires ScopesMatch(p, q) && e.UCall?
    requires Resolve(cat, e, q, false, guard).Ok? && !ContainsSubquery(Resolve(cat, e, q, false, guard).value)
    ensures Resolve(cat, e, p, true, guard).Ok?
    ensures Matches(Resolve(cat, e, p, true, guard).value, Resolve(cat, e, q, false, guard).value)
    decreases cat.sqlNames - guard, e, 0, 2
  {
    if e.name == "in" {
      InUnfolds(cat, e, q, false, guard);
      InUnfolds(cat, e, p, true, guard);
    }
    var us := ResolveFrom(cat, e.inputs, 0, q, false, guard).value;
    if e.name == "in" {
      InInputsSubqueryFree(cat, IsConstantIn(e.inputs), us);
      ReferenceInlinesFrom(cat, e.inputs, 0, p, q, guard);
      InFormsMatch(cat, IsConstantIn(e.inputs), ResolveFrom(cat, e.inputs, 0, p, true, guard).value, us);
    } else {
      CallInputsSubqueryFree(cat, e, e.name, us, guard);
      ReferenceInlinesFrom(cat, e.inputs, 0, p, q, guard);
      ReferenceInlinesCall(cat, e, e.name, ResolveFrom(cat, e.inputs, 0, p, true, guard).value, us, guard);
    }
  }

  lemma {:induction false} CoerceOneSubquery(e: Expr, ty: Type)
    ensures ContainsSubquery(CoerceOne(e, ty)) <==> ContainsSubquery(e)
  {
    var c := CoerceOne(e, ty);
    if IsCast(e) {
      assert ContainsSubquery(e) <==> ContainsSubquery(e.inputs[0]);
      if c != e { assert ContainsSubquery(c) <==> ContainsSubquery(c.inputs[0]); }
    } else if c != e && c.Special? {
      assert ContainsSubquery(c) <==> ContainsSubquery(c.inputs[0]);
    }
  }

  lemma {:induction false} InInputsSubqueryFree(cat: Catalog, constant: bool, us: seq<Expr>)
    requires us != [] && (constant ==> ConstantTail(us)) && ResolveInForms(cat, constant, us).Ok?
    requires !ContainsSubquery(ResolveInForms(cat, constant, us).value)
    ensures forall i :: 0 <= i < |us| ==> !ContainsSubquery(us[i])
  {
    var common := CommonType(cat.superType, us[0].ty, Types(us[1..])).value;
    var r := ResolveInForms(cat, constant, us).value;
    assert [us[0]] + us[1..] == us;
    forall i | 0 <= i < |us| ensures !ContainsSubquery(us[i]) {
      CoerceOneSubquery(us[i], common);
      if !us[i].Constant? { assert r.inputs[i] == CoerceOne(us[i], common); }
    }
  }

  lemma {:induction false} CoerceOneMatches(t: Expr, u: Expr, ty: Type)
    requires Matches(t, u)
    ensures Matches(CoerceOne(t, ty), CoerceOne(u, ty))
  {
    CoerceOneSubquery(t, ty);
    CoerceOneSubquery(u, ty);
  }

  lemma {:induction false} CoerceAllMatches(ts: seq<Expr>, us: seq<Expr>, ty: Type)
    requires AllMatch(ts, us)
    ensures AllMatch(CoerceAll(ts, ty), CoerceAll(us, ty))
  {
    forall i | 0 <= i < |ts| ensures Matches(CoerceAll(ts, ty)[i], CoerceAll(us, ty)[i]) { CoerceOneMatches(ts[i], us[i], ty); }
  }

  lemma {:induction false} ListInMatches(cat: Catalog, ts: seq<Expr>, us: seq<Expr>)
    requires us != [] && AllMatch(ts, us) && ResolveIn(Some(cat.superType), us).Ok?
    ensures ResolveIn(Some(cat.superType), ts).Ok?
    ensures Matches(ResolveIn(Some(cat.superType), ts).value, ResolveIn(Some(cat.superType), us).value)
  {
    MatchTypes(ts, us);
    assert Types(ts[1..]) == Types(us[1..]);
    var common := CommonType(cat.superType, us[0].ty, Types(us[1..])).value;
    CoerceAllMatches(ts, us, common);
    SpecialMatches(Boolean, In, CoerceAll(ts, common), CoerceAll(us, common));
  }

  lemma {:induction false} InFormsMatch(cat: Catalog, constant: bool, ts: seq<Expr>, us: seq<Expr>)
    requires us != [] && AllMatch(ts, us) && (constant ==> ConstantTail(us)) && ResolveInForms(cat, constant, us).Ok?
    ensures ts != [] && (constant ==> ConstantTail(ts)) && ResolveInForms(cat, constant, ts).Ok?
    ensures Matches(ResolveInForms(cat, constant, ts).value, ResolveInForms(cat, constant, us).value)
  {
    if constant {
      assert ts[1..] == us[1..];
      ConstantInMatches(cat, ts, us);
    } else {
      ListInMatches(cat, ts, us);
    }
  }

  lemma {:induction false} InArrayMatches(t: Expr, u: Expr, ty: Type, stored: Expr)
    requires Matches(t, u) && stored.Constant? && ValidSpecial(Boolean, InArray, [CoerceOne(u, ty), stored])
    ensures ValidSpecial(Boolean, InArray, [CoerceOne(t, ty), stored])
    ensures Matches(Special(Boolean, InArray, [CoerceOne(t, ty), stored]), Special(Boolean, InArray, [CoerceOne(u, ty), stored]))
  {
    CoerceOneMatches(t, u, ty);
    SpecialMatches(Boolean, InArray, [CoerceOne(t, ty), stored], [CoerceOne(u, ty), stored]);
  }

  lemma {:induction false} ConstantInMatches(cat: Catalog, ts: seq<Expr>, us: seq<Expr>)
    requires us != [] && AllMatch(ts, us) && ConstantTail(us) && ts[1..] == us[1..]
    requires ResolveConstantIn(Some(cat.superType), us[0], us[1..]).Ok?
    ensures var t, u := ResolveConstantIn(Some(cat.superType), ts[0], ts[1..]), ResolveConstantIn(Some(cat.superType), us[0], us[1..]);
            t.Ok? && Matches(t.value, u.value)
  {
    var common := CommonType(cat.superType, us[0].ty, Types(us[1..]));
    if common.Some? && !common.value.Unknown? && LiteralArray(us[1..], common.value).Some? {
      var stored := Constant(Array(common.value), ArrayV(LiteralArray(us[1..], common.value).value));
      InArrayMatches(ts[0], us[0], common.value, stored);
    } else {
      assert [ts[0]] + ts[1..] == ts && [us[0]] + us[1..] == us;
      ListInMatches(cat, ts, us);
    }
  }

  lemma {:induction false} ReferenceInlinesFrom(cat: Catalog, es: seq<UExpr>, i: nat, p: Scope, q: Scope, guard: set<string>)
    requires i <= |es| && ScopesMatch(p, q) && ResolveFrom(cat, es, i, q, false, guard).Ok?
    requires forall j :: 0 <= j < |es| - i ==> !ContainsSubquery(ResolveFrom(cat, es, i, q, false, guard).value[j])
    ensures ResolveFrom(cat, es, i, p, true, guard).Ok?
    ensures AllMatch(ResolveFrom(cat, es, i, p, true, guard).value, ResolveFrom(cat, es, i, q, false, guard).value)
    decreases cat.sqlNames - guard, es, 0, |es| - i
  {
    forall k | i <= k < |es|
      ensures Resolve(cat, es[k], p, true, guard).Ok?
      ensures Matches(Resolve(cat, es[k], p, true, guard).value, ResolveFrom(cat, es, i, q, false, guard).value[k - i])
    {
      InputResolved(cat, es, i, q, false, guard, k - i);
      ReferenceInlines(cat, es[k], p, q, guard);
    }
    InputsResolve(cat, es, i, p, true, guard);
    forall j | 0 <= j < |es| - i
      ensures Matches(ResolveFrom(cat, es, i, p, true, guard).value[j], ResolveFrom(cat, es, i, q, false, guard).value[j])
    {
      InputResolved(cat, es, i, p, true, guard, j);
    }
  }

  lemma {:induction false} InputsResolve(
      cat: Catalog, es: seq<UExpr>, i: nat, scope: Scope, inlined: bool, guard: set<string>)
    requires i <= |es| && forall k :: i <= k < |es| ==> Resolve(cat, es[k], scope, inlined, guard).Ok?
    ensures ResolveFrom(cat, es, i, scope, inlined, guard).Ok?
    decreases |es| - i
  {
    if i < |es| { InputsResolve(cat, es, i + 1, scope, inlined, guard); }
  }

  lemma {:induction false} PeeledSubquery(e: Expr)
    ensures ContainsSubquery(Peeled(e)) <==> ContainsSubquery(e)
    ensures Contains(Peeled(e), Peeled(e))
  {
    if IsCast(e) { assert ContainsSubquery(e) <==> ContainsSubquery(e.inputs[0]); }
  }

  lemma {:induction false} CallInputsSubqueryFree(cat: Catalog, e: UExpr, name: string, us: seq<Expr>, guard: set<string>)
    requires name != "in" && ResolveCall(cat, e, name, us, false, guard).Ok?
    requires !ContainsSubquery(ResolveCall(cat, e, name, us, false, guard).value)
    ensures forall i :: 0 <= i < |us| ==> !ContainsSubquery(us[i])
  {
    forall i | 0 <= i < |us| ensures !ContainsSubquery(us[i]) {
      if ContainsSubquery(us[i]) {
        PeeledSubquery(us[i]);
        UsedInCall(cat, e, name, us, false, guard, i, Peeled(us[i]));
        var t := ResolveCall(cat, e, name, us, false, guard).value;
        ContainedSubquery(Peeled(t), Peeled(us[i]));
        PeeledSubquery(t);
      }
    }
  }

  lemma {:induction false} ReferenceInlinesCall(
      cat: Catalog, e: UExpr, name: string, ts: seq<Expr>, us: seq<Expr>, guard: set<string>)
    requires name != "in" && AllMatch(ts, us)
    requires forall i :: 0 <= i < |us| ==> !ContainsSubquery(us[i])
    requires ResolveCall(cat, e, name, us, false, guard).Ok?
    ensures ResolveCall(cat, e, name, ts, true, guard).Ok?
    ensures Matches(ResolveCall(cat, e, name, ts, true, guard).value, ResolveCall(cat, e, name, us, false, guard).value)
    decreases cat.sqlNames - guard, e, 0, 1
  {
    MatchTypes(ts, us);
    if ResolveForm(cat, name, us).value.Some? {
      FormMatches(cat, name, ts, us);
    } else {
      assert ResolveForm(cat, name, ts) == Ok(None) by { FormMatches(cat, name, ts, us); }
      var found := cat.sqlFunction(name, Types(us));
      if found.None? {
        ScalarMatches(cat, name, ts, us);
      } else {
        ReferenceInlinesSql(cat, e, name, found.value, ts, us, guard);
      }
    }
  }

  lemma {:induction false} ScalarMatches(cat: Catalog, name: string, ts: seq<Expr>, us: seq<Expr>)
    requires AllMatch(ts, us) && ResolveScalar(cat, name, us).Ok?
    requires forall i :: 0 <= i < |us| ==> !ContainsSubquery(us[i])
    ensures ResolveScalar(cat, name, ts).Ok?
    ensures Matches(ResolveScalar(cat, name, ts).value, ResolveScalar(cat, name, us).value)
  {
    MatchTypes(ts, us);
    CoercionsMatch(ts, us, cat.scalar(name, Types(us)).value.coercions);
  }

  lemma {:induction false} ReferenceInlinesSql(
      cat: Catalog, e: UExpr, name: string, f: SqlFunction, ts: seq<Expr>, us: seq<Expr>, guard: set<string>)
    requires AllMatch(ts, us) && cat.sqlFunction(name, Types(us)) == Some(f)
    requires forall i :: 0 <= i < |us| ==> !ContainsSubquery(us[i])
    requires ResolveSqlFunction(cat, e, name, us, false, guard).Ok?
    ensures ResolveSqlFunction(cat, e, name, ts, true, guard).Ok?
    ensures ResolveSqlFunction(cat, e, name, ts, true, guard).value.Some?
    ensures Matches(ResolveSqlFunction(cat, e, name, ts, true, guard).value.value,
                    ResolveSqlFunction(cat, e, name, us, false, guard).value.value)
    decreases cat.sqlNames - guard, e, 0, 0
  {
    MatchTypes(ts, us);
    SqlUnfolds(cat, e, name, f, us, false, guard);
    SqlUnfolds(cat, e, name, f, ts, true, guard);
    assert cat.sqlNames - (guard + {name}) < cat.sqlNames - guard by { assert name in cat.sqlNames - guard; }
    ArgumentsReady(f, ts, us);
    ReferenceInlinesBody(cat, f, CastArguments(ts, f.argumentTypes), CastArguments(us, f.argumentTypes), guard + {name});
  }

  lemma {:induction false} ArgumentsReady(f: SqlFunction, ts: seq<Expr>, us: seq<Expr>)
    requires AllMatch(ts, us) && |f.argumentNames| == |us| == |f.argumentTypes|
    requires forall i :: 0 <= i < |us| ==> !ContainsSubquery(us[i])
    ensures var args, reference := CastArguments(ts, f.argumentTypes), CastArguments(us, f.argumentTypes);
            && Params(f.argumentNames, args) == Params(f.argumentNames, reference)
            && forall i :: 0 <= i < |args| ==> !ContainsSubquery(args[i])
  {
    ArgumentsMatch(ts, us, f.argumentTypes);
    forall i | 0 <= i < |us| ensures !ContainsSubquery(CastArguments(us, f.argumentTypes)[i]) {
    }
    assert Params(f.argumentNames, CastArguments(ts, f.argumentTypes))
        == Params(f.argumentNames, CastArguments(us, f.argumentTypes));
  }

  /** A call of a SQL function, unfolded: its signature is checked, its body resolved and finished. */
  lemma {:induction false} SqlUnfolds(
      cat: Catalog, e: UExpr, name: string, f: SqlFunction, inputs: seq<Expr>, inlined: bool, guard: set<string>)
    requires cat.sqlFunction(name, Types(inputs)) == Some(f)
    ensures ResolveSqlFunction(cat, e, name, inputs, inlined, guard).Ok? ==>
              name !in guard && name in cat.sqlNames && CheckSignature(f, inputs).Ok?
    ensures name !in guard && name in cat.sqlNames && CheckSignature(f, inputs).Ok? ==>
              ResolveSqlFunction(cat, e, name, inputs, inlined, guard)
              == ResolveBody(cat, f, CastArguments(inputs, f.argumentTypes), inlined, guard + {name})
  {
  }

  function ResolveBody(cat: Catalog, f: SqlFunction, args: seq<Expr>, inlined: bool, guard: set<string>): Result<Option<Expr>, Error>
    requires |f.argumentNames| == |args|
  {
    var body :- Resolve(cat, f.body, BodyScope(f, args, inlined), inlined, guard);
    Lift(FinishBody(cat, f, args, body, inlined))
  }

  lemma {:induction false} ReferenceInlinesBody(
      cat: Catalog, f: SqlFunction, args: seq<Expr>, reference: seq<Expr>, guard: set<string>)
    requires |f.argumentNames| == |args| == |reference| && Distinct(f.argumentNames)
    requires Params(f.argumentNames, args) == Params(f.argumentNames, reference)
    requires forall i :: 0 <= i < |args| ==> !ContainsSubquery(args[i])
    requires ResolveBody(cat, f, reference, false, guard).Ok?
    ensures ResolveBody(cat, f, args, true, guard).Ok?
    ensures Matches(ResolveBody(cat, f, args, true, guard).value.value, ResolveBody(cat, f, reference, false, guard).value.value)
    decreases cat.sqlNames - guard, f.body, 3, 0
  {
    var bound, params := BodyScope(f, args, true), BodyScope(f, reference, false);
    var u := Resolve(cat, f.body, params, false, guard).value;
    assert ResolveBody(cat, f, reference, false, guard) == Lift(FinishBody(cat, f, reference, u, false));
    ArgumentsMatchParams(f, args);
    ReferenceInlines(cat, f.body, bound, params, guard);
    FinishMatches(cat, f, args, reference, Resolve(cat, f.body, bound, true, guard).value, u);
  }

  lemma {:induction false} ArgumentsMatchParams(f: SqlFunction, args: seq<Expr>)
    requires |f.argumentNames| == |args| && Distinct(f.argumentNames)
    requires forall i :: 0 <= i < |args| ==> !ContainsSubquery(args[i])
    ensures ScopesMatch(BodyScope(f, args, true), BodyScope(f, args, false))
  {
    var p, q := BodyScope(f, args, true), BodyScope(f, args, false);
    forall x | x in p.columns ensures Matches(p.columns[x], q.columns[x]) {
      var i :| 0 <= i < |args| && f.argumentNames[i] == x;
      BindAt(f.argumentNames, args, i);
      BindAt(f.argumentNames, Params(f.argumentNames, args), i);
    }
  }

  lemma {:induction false} FinishMatches(cat: Catalog, f: SqlFunction, args: seq<Expr>, reference: seq<Expr>, t: Expr, u: Expr)
    requires t.ty == u.ty && !ContainsSubquery(t) && forall i :: 0 <= i < |args| ==> !ContainsSubquery(args[i])
    requires FinishBody(cat, f, reference, u, false).Ok?
    ensures var r := FinishBody(cat, f, args, t, true);
            r.Ok? && r.value.ty == FinishBody(cat, f, reference, u, false).value.ty && !ContainsSubquery(r.value)
  {
    var result := CastResult(cat, t, f.returnType).value;
    if result != t { assert ContainsSubquery(result) <==> ContainsSubquery(result.inputs[0]); }
    GuardHasNoSubquery(result, args);
  }

  lemma {:induction false} GuardHasNoSubquery(body: Expr, args: seq<Expr>)
    requires !ContainsSubquery(body) && forall i :: 0 <= i < |args| ==> !ContainsSubquery(args[i])
    ensures !ContainsSubquery(NullGuard(body, args)) && NullGuard(body, args).ty == body.ty
  {
    if args != [] {
      var tests := NullTests(args);
      forall i | 0 <= i < |tests| ensures !ContainsSubquery(tests[i]) {}
      var g := NullGuard(body, args);
      assert !ContainsSubquery(g.inputs[0]) && !ContainsSubquery(g.inputs[1]) && !ContainsSubquery(g.inputs[2]);
    }
  }

  // ----- What resolution tells about its parts.

  /** Substituting no cast and no subquery commutes with every IN. */
  lemma {:induction false} PlainCommutes(cat: Catalog, e: UExpr, scope: Scope, s: map<string, Expr>, guard: set<string>)
    requires forall x :: x in s ==> !IsCast(s[x]) && !IsSubquery(s[x])
    ensures CommutesIn(cat, e, scope, s, guard)
    decreases cat.sqlNames - guard, e, 1, 0
  {
    match e
    case Field(input, _) => PlainCommutes(cat, input, scope, s, guard);
    case UCast(_, _, input) => PlainCommutes(cat, input, scope, s, guard);
    case URow(_, inputs) =>
      forall i | 0 <= i < |inputs| ensures CommutesIn(cat, inputs[i], scope, s, guard) {
        PlainCommutes(cat, inputs[i], scope, s, guard);
      }
    case UCall(name, inputs) =>
      forall i | 0 <= i < |inputs| ensures CommutesIn(cat, inputs[i], scope, s, guard) {
        PlainCommutes(cat, inputs[i], scope, s, guard);
      }
      var r := ResolveFrom(cat, inputs, 0, scope, true, guard);
      if r.Ok? {
        var f := cat.sqlFunction(name, Types(r.value));
        if f.Some? && Inlinable(cat, name, f.value, r.value, guard) {
          assert cat.sqlNames - (guard + {name}) < cat.sqlNames - guard by { assert name in cat.sqlNames - guard; }
          var args := CastArguments(r.value, f.value.argumentTypes);
          PlainCommutes(cat, f.value.body, BodyScope(f.value, args, true), s, guard + {name});
        }
      }
    case _ =>
  }

  lemma {:induction false} InputResolved(
      cat: Catalog, es: seq<UExpr>, i: nat, scope: Scope, inlined: bool, guard: set<string>, j: nat)
    requires i + j < |es| && ResolveFrom(cat, es, i, scope, inlined, guard).Ok?
    ensures Resolve(cat, es[i + j], scope, inlined, guard) == Ok(ResolveFrom(cat, es, i, scope, inlined, guard).value[j])
    decreases j
  {
    if j > 0 { InputResolved(cat, es, i + 1, scope, inlined, guard, j - 1); }
  }

  lemma {:induction false} BodyUnfolds(cat: Catalog, f: SqlFunction, args: seq<Expr>, inlined: bool, guard: set<string>)
    requires |f.argumentNames| == |args| && ResolveBody(cat, f, args, inlined, guard).Ok?
    ensures var r := Resolve(cat, f.body, BodyScope(f, args, inlined), inlined, guard);
            && r.Ok? && !ContainsSubquery(r.value) && UsedColumns(f.body) == (set x | x in f.argumentNames)
            && CastResult(cat, r.value, f.returnType).Ok? && FinishBody(cat, f, args, r.value, inlined).Ok?
            && ResolveBody(cat, f, args, inlined, guard).value == Some(FinishBody(cat, f, args, r.value, inlined).value)
  {
  }

  lemma {:induction false} ArgumentsSubqueryFree(cat: Catalog, f: SqlFunction, args: seq<Expr>, guard: set<string>)
    requires |f.argumentNames| == |args| && Distinct(f.argumentNames)
    requires Resolve(cat, f.body, Scope(Bind(f.argumentNames, args), map[]), true, guard).Ok?
    requires FinishBody(cat, f, args,
               Resolve(cat, f.body, Scope(Bind(f.argumentNames, args), map[]), true, guard).value, true).Ok?
    ensures forall i :: 0 <= i < |args| ==> !ContainsSubquery(args[i])
  {
    var bound := Scope(Bind(f.argumentNames, args), map[]);
    forall i | 0 <= i < |args| ensures !ContainsSubquery(args[i]) {
      BindAt(f.argumentNames, args, i);
      if ContainsSubquery(args[i]) {
        PeeledSubquery(args[i]);
        UsedIsContained(cat, f.body, bound, true, guard, f.argumentNames[i]);
        ContainedSubquery(Resolve(cat, f.body, bound, true, guard).value, Peeled(args[i]));
      }
    }
  }

  lemma {:induction false} ParamsContained(cat: Catalog, f: SqlFunction, args: seq<Expr>, u: Expr, guard: set<string>)
    requires |f.argumentNames| == |args| && Distinct(f.argumentNames)
    requires UsedColumns(f.body) == set x | x in f.argumentNames
    requires CastResult(cat, u, f.returnType).Ok? && Resolve(cat, f.body, BodyScope(f, args, false), false, guard) == Ok(u)
    ensures forall i :: 0 <= i < |args| ==>
              Contains(CastResult(cat, u, f.returnType).value, InputRef(args[i].ty, f.argumentNames[i]))
  {
    forall i | 0 <= i < |args|
      ensures Contains(CastResult(cat, u, f.returnType).value, InputRef(args[i].ty, f.argumentNames[i]))
    {
      ParamContained(cat, f, args, u, guard, i);
    }
  }

  lemma {:induction false} ParamContained(cat: Catalog, f: SqlFunction, args: seq<Expr>, u: Expr, guard: set<string>, i: nat)
    requires |f.argumentNames| == |args| && Distinct(f.argumentNames)
    requires i < |args| && UsedColumns(f.body) == set x | x in f.argumentNames
    requires CastResult(cat, u, f.returnType).Ok?
    requires Resolve(cat, f.body, Scope(Bind(f.argumentNames, Params(f.argumentNames, args)), map[]), false, guard) == Ok(u)
    ensures Contains(CastResult(cat, u, f.returnType).value, InputRef(args[i].ty, f.argumentNames[i]))
  {
    var names := f.argumentNames;
    BindAt(names, Params(names, args), i);
    UsedIsContained(cat, f.body, Scope(Bind(names, Params(names, args)), map[]), false, guard, names[i]);
    var r := CastResult(cat, u, f.returnType).value;
    if r != u { assert Contains(r.inputs[0], InputRef(args[i].ty, names[i])); }
  }

  lemma {:induction false} FormIsNoCast(cat: Catalog, name: string, inputs: seq<Expr>)
    requires ResolveForm(cat, name, inputs).Ok? && ResolveForm(cat, name, inputs).value.Some?
    ensures var r := ResolveForm(cat, name, inputs).value.value; r.Special? && !IsCast(r)
  {
  }

  lemma {:induction false} FinishIsNoSubquery(cat: Catalog, f: SqlFunction, args: seq<Expr>, body: Expr, inlined: bool)
    requires FinishBody(cat, f, args, body, inlined).Ok?
    ensures !IsSubquery(FinishBody(cat, f, args, body, inlined).value)
    ensures !inlined ==> FinishBody(cat, f, args, body, inlined).value.SqlCall?
  {
  }

  /** A resolved call is no subquery, and without inlining no cast. */
  lemma {:induction false} CallShape(cat: Catalog, e: UExpr, name: string, inputs: seq<Expr>, inlined: bool, guard: set<string>)
    requires ResolveCall(cat, e, name, inputs, inlined, guard).Ok?
    ensures var r := ResolveCall(cat, e, name, inputs, inlined, guard).value; !IsSubquery(r) && (!inlined ==> !IsCast(r))
  {
    if ResolveForm(cat, name, inputs).value.Some? {
      FormIsNoCast(cat, name, inputs);
    } else {
      var f := cat.sqlFunction(name, Types(inputs));
      if f.Some? {
        SqlUnfolds(cat, e, name, f.value, inputs, inlined, guard);
        var args := CastArguments(inputs, f.value.argumentTypes);
        var body := Resolve(cat, f.value.body, BodyScope(f.value, args, inlined), inlined, guard + {name}).value;
        FinishIsNoSubquery(cat, f.value, args, body, inlined);
      }
    }
  }

  lemma {:induction false} InFormsShape(cat: Catalog, constant: bool, ts: seq<Expr>)
    requires ts != [] && (constant ==> ConstantTail(ts)) && ResolveInForms(cat, constant, ts).Ok?
    ensures var r := ResolveInForms(cat, constant, ts).value; r.Special? && !IsCast(r)
  {
  }

  lemma {:induction false} ResolvedCallShape(cat: Catalog, e: UExpr, scope: Scope, inlined: bool, guard: set<string>)
    requires e.UCall? && Resolve(cat, e, scope, inlined, guard).Ok?
    ensures var r := Resolve(cat, e, scope, inlined, guard).value; !IsSubquery(r) && (!inlined ==> !IsCast(r))
  {
    if e.name == "in" {
      InUnfolds(cat, e, scope, inlined, guard);
      InFormsShape(cat, IsConstantIn(e.inputs), ResolveFrom(cat, e.inputs, 0, scope, inlined, guard).value);
    } else {
      CallShape(cat, e, e.name, ResolveFrom(cat, e.inputs, 0, scope, inlined, guard).value, inlined, guard);
    }
  }
}
