/** Resolution is type sound: over an engine that keeps to its signatures, whatever resolves
    evaluates to a value of its type, or fails. */
module ResolvedTypes {
  import opened Wrappers
  import opened Values
  import opened Exprs
  import opened Resolver
  import opened Inlining
  import opened InPredicate

  predicate Typed(o: Outcome, ty: Type) {
    o.Val? ==> HasType(o.value, ty)
  }

  ghost predicate TypedExpr(engine: Engine, t: Expr, env: Env) {
    Typed(Eval(engine, t, env), t.ty)
  }

  ghost predicate AllTyped(engine: Engine, ts: seq<Expr>, env: Env) {
    forall i :: 0 <= i < |ts| ==> TypedExpr(engine, ts[i], env)
  }

  // ----- An engine that keeps to its signatures.

  predicate Coerces(ts: seq<Type>, coercions: seq<Option<Type>>) {
    coercions == [] || |coercions| >= |ts|
  }

  function CoercedType(ts: seq<Type>, coercions: seq<Option<Type>>, i: nat): Type
    requires i < |ts| && Coerces(ts, coercions)
  {
    if coercions != [] && coercions[i].Some? then coercions[i].value else ts[i]
  }

  /** A scalar function, called with inputs of the coerced types, gives its return type. */
  ghost predicate SoundScalar(engine: Engine, cat: Catalog, name: string, ts: seq<Type>, os: seq<Outcome>) {
    var found := cat.scalar(name, ts);
    found.Some? && Coerces(ts, found.value.coercions) && |os| == |ts|
    && (forall i :: 0 <= i < |ts| ==> Typed(os[i], CoercedType(ts, found.value.coercions, i))) ==>
      Typed(ApplyScalar(engine, name, os), found.value.returnType)
  }

  /** AND and OR are BOOLEAN; COALESCE has the type its inputs are coerced to. */
  predicate SoundForm(cat: Catalog, name: string, ts: seq<Type>) {
    var found := cat.form(name, ts);
    found.Some? ==>
      && (name == "and" || name == "or" ==> found.value.returnType == Boolean)
      && (name == "coalesce" && ts != [] && Coerces(ts, found.value.coercions) ==>
            Equivalent(CoercedType(ts, found.value.coercions, 0), found.value.returnType))
  }

  ghost predicate Sound(engine: Engine, cat: Catalog) {
    && (forall v, from, to :: HasType(v, from) ==> Typed(engine.cast(v, from, to), to))
    && (forall name, ts, os :: SoundScalar(engine, cat, name, ts, os))
    && (forall name, ts :: SoundForm(cat, name, ts))
    && (forall name, ts :: cat.sqlFunction(name, ts).Some? ==> TypedSubqueries(engine, cat.sqlFunction(name, ts).value.body))
  }

  predicate TypedSubqueries(engine: Engine, e: UExpr) {
    match e
    case USubquery(ty, id) => Typed(engine.subquery(id), ty)
    case Field(input, _) => TypedSubqueries(engine, input)
    case UCast(_, _, input) => TypedSubqueries(engine, input)
    case UCall(_, inputs) => forall i :: 0 <= i < |inputs| ==> TypedSubqueries(engine, inputs[i])
    case URow(_, inputs) => forall i :: 0 <= i < |inputs| ==> TypedSubqueries(engine, inputs[i])
    case _ => true
  }

  // ----- Each construction is typed.

  lemma {:induction false} CastValueTyped(engine: Engine, cat: Catalog, v: Value, from: Type, to: Type)
    requires Sound(engine, cat) && HasType(v, from)
    ensures Typed(CastValue(engine, v, from, to), to)
    decreases v
  {
    if Equivalent(from, to) {
      EquivalentTyping(v, from, to);
    } else if v.RowV? && to.Row? && |v.fields| == |to.fields| {
      var os := seq(|v.fields|, i requires 0 <= i < |v.fields| => CastValue(engine, v.fields[i], from.fields[i], to.fields[i]));
      forall i | 0 <= i < |os| ensures Typed(os[i], to.fields[i]) {
        CastValueTyped(engine, cat, v.fields[i], from.fields[i], to.fields[i]);
      }
      RowTyped(os, to);
    }
  }

  lemma {:induction false} RowTyped(os: seq<Outcome>, ty: Type)
    requires ty.Row? && |os| == |ty.fields| && forall i :: 0 <= i < |os| ==> Typed(os[i], ty.fields[i])
    ensures Typed(RowOf(os), ty)
  {
    if ValuesOf(os).Some? {
      var vs := ValuesOf(os).value;
      forall i | 0 <= i < |vs| ensures HasType(vs[i], ty.fields[i]) { assert os[i] == Val(vs[i]); }
    }
  }

  lemma {:induction false} CastTyped(engine: Engine, cat: Catalog, ty: Type, t: Expr, env: Env)
    requires Sound(engine, cat) && TypedExpr(engine, t, env)
    ensures TypedExpr(engine, CastTo(ty, t), env) && TypedExpr(engine, Special(ty, TryCast, [t]), env)
  {
    CastOutcome(engine, t, ty, env);
    var o := Eval(engine, t, env);
    var u := Special(ty, TryCast, [t]);
    assert EvalAll(engine, u.inputs, env) == [o];
    assert Eval(engine, u, env) == CombineStrict(engine, TryCast, ty, Types(u.inputs), [o]);
    if o.Val? {
      CastValueTyped(engine, cat, o.value, t.ty, ty);
      AllValues([o], [o.value]);
    } else {
      assert [o][0].Err?;
    }
  }

  lemma {:induction false} EquivalentOutcome(o: Outcome, a: Type, b: Type)
    requires Typed(o, a) && Equivalent(a, b)
    ensures Typed(o, b)
  {
    if o.Val? { EquivalentTyping(o.value, a, b); }
  }

  lemma {:induction false} CoercedTyped(engine: Engine, cat: Catalog, ts: seq<Expr>, coercions: seq<Option<Type>>, env: Env)
    requires Sound(engine, cat) && AllTyped(engine, ts, env) && ApplyCoercions(ts, coercions).Ok?
    ensures Coerces(Types(ts), coercions) && AllTyped(engine, ApplyCoercions(ts, coercions).value, env)
    ensures var us := ApplyCoercions(ts, coercions).value;
            |us| == |ts| && forall i :: 0 <= i < |us| ==> us[i].ty == CoercedType(Types(ts), coercions, i)
  {
    var us := ApplyCoercions(ts, coercions).value;
    forall i | 0 <= i < |us| ensures TypedExpr(engine, us[i], env) {
      if coercions != [] && coercions[i].Some? { CastTyped(engine, cat, coercions[i].value, ts[i], env); }
    }
  }

  lemma {:induction false} FirstNonNullTyped(ty: Type, os: seq<Outcome>)
    requires forall i :: 0 <= i < |os| ==> Typed(os[i], ty)
    ensures Typed(FirstNonNull(ty, os), ty)
  {
    if os != [] { FirstNonNullTyped(ty, os[1..]); }
  }

  lemma {:induction false} CoalesceTyped(engine: Engine, ty: Type, ts: seq<Expr>, env: Env)
    requires ValidSpecial(ty, Coalesce, ts) && AllTyped(engine, ts, env) && Equivalent(ts[0].ty, ty)
    ensures TypedExpr(engine, Special(ty, Coalesce, ts), env)
  {
    var os := EvalAll(engine, ts, env);
    forall i | 0 <= i < |os| ensures Typed(os[i], ty) {
      EquivalentRefl(ts[0].ty);
      EquivalentSym(ts[0].ty, ts[i].ty);
      EquivalentTrans(ts[i].ty, ts[0].ty, ty);
      assert TypedExpr(engine, ts[i], env);
      EquivalentOutcome(os[i], ts[i].ty, ty);
    }
    FirstNonNullTyped(ty, os);
    assert Eval(engine, Special(ty, Coalesce, ts), env) == FirstNonNull(ty, os);
  }

  lemma {:induction false} IfTyped(engine: Engine, ty: Type, ts: seq<Expr>, env: Env)
    requires 2 <= |ts| <= 3 && forall i :: 1 <= i < |ts| ==> TypedExpr(engine, ts[i], env) && Equivalent(ty, ts[i].ty)
    ensures TypedExpr(engine, Special(ty, If, ts), env)
  {
    var os := EvalAll(engine, ts, env);
    forall i | 1 <= i < |os| ensures Typed(os[i], ty) {
      EquivalentSym(ty, ts[i].ty);
      assert TypedExpr(engine, ts[i], env);
      EquivalentOutcome(os[i], ts[i].ty, ty);
    }
    assert Eval(engine, Special(ty, If, ts), env) == Combine(engine, If, ty, Types(ts), os);
  }

  lemma {:induction false} TryTyped(engine: Engine, t: Expr, ts: seq<Expr>, env: Env)
    requires ts == [t] && TypedExpr(engine, t, env)
    ensures TypedExpr(engine, Special(t.ty, Try, ts), env)
  {
    assert EvalAll(engine, ts, env) == [Eval(engine, t, env)];
    assert Eval(engine, Special(t.ty, Try, ts), env) == Combine(engine, Try, t.ty, Types(ts), [Eval(engine, t, env)]);
  }

  /** AND, OR and the forms of IN are BOOLEAN whatever their inputs. */
  lemma {:induction false} TruthTyped(engine: Engine, form: Form, ts: seq<Expr>, env: Env)
    requires form == And || form == Or || form == In || form == InArray
    ensures TypedExpr(engine, Special(Boolean, form, ts), env)
  {
    var os := EvalAll(engine, ts, env);
    assert Eval(engine, Special(Boolean, form, ts), env) == Combine(engine, form, Boolean, Types(ts), os);
  }

  lemma {:induction false} DereferenceTyped(engine: Engine, ty: Type, t: Expr, field: Expr, env: Env)
    requires ValidSpecial(ty, Dereference, [t, field]) && TypedExpr(engine, t, env)
    ensures TypedExpr(engine, Special(ty, Dereference, [t, field]), env)
  {
    var ts := [t, field];
    var os := EvalAll(engine, ts, env);
    assert os == [Eval(engine, t, env), Val(field.value)];
    assert Eval(engine, Special(ty, Dereference, ts), env) == CombineStrict(engine, Dereference, ty, Types(ts), os);
    if os[0].Val? {
      AllValues(os, [os[0].value, field.value]);
      var index := FieldIndex(t.ty, field.value).value;
      var o := FieldOf(t.ty, os[0].value, field.value);
      EquivalentSym(ty, t.ty.fields[index]);
      EquivalentOutcome(o, t.ty.fields[index], ty);
    } else {
      assert os[0].Err?;
    }
  }

  lemma {:induction false} RowConstructorTyped(engine: Engine, names: seq<string>, ts: seq<Expr>, env: Env)
    requires AllTyped(engine, ts, env)
    ensures TypedExpr(engine, Special(Row(names, Types(ts)), RowConstructor, ts), env)
  {
    var ty := Row(names, Types(ts));
    var os := EvalAll(engine, ts, env);
    forall i | 0 <= i < |os| ensures Typed(os[i], ty.fields[i]) { assert TypedExpr(engine, ts[i], env); }
    RowTyped(os, ty);
    assert Eval(engine, Special(ty, RowConstructor, ts), env) == RowOf(os);
  }

  lemma {:induction false} FormTyped(engine: Engine, cat: Catalog, name: string, ts: seq<Expr>, env: Env)
    requires Sound(engine, cat) && AllTyped(engine, ts, env) && name != "in"
    requires ResolveForm(cat, name, ts).Ok? && ResolveForm(cat, name, ts).value.Some?
    ensures TypedExpr(engine, ResolveForm(cat, name, ts).value.value, env)
  {
    if name == "and" || name == "or" {
      assert SoundForm(cat, name, Types(ts));
      var r := ResolveForm(cat, name, ts).value.value;
      TruthTyped(engine, r.form, r.inputs, env);
    } else if name == "coalesce" {
      assert SoundForm(cat, name, Types(ts));
      var signature := cat.form(name, Types(ts)).value;
      CoercedTyped(engine, cat, ts, signature.coercions, env);
      CoalesceTyped(engine, signature.returnType, ApplyCoercions(ts, signature.coercions).value, env);
    } else if name == "if" {
      var three := WithNullElse(ts);
      assert AllTyped(engine, three, env);
      var signature := cat.form(name, Types(three)).value;
      CoercedTyped(engine, cat, three, signature.coercions, env);
      IfTyped(engine, signature.returnType, ApplyCoercions(three, signature.coercions).value, env);
    } else if name == "row_constructor" {
      RowConstructorTyped(engine, seq(|ts|, i => ""), ts, env);
    } else if name == "try" {
      TryTyped(engine, ts[0], ts, env);
    } else {
      var r := ResolveSubscript(ts).value;
      DereferenceTyped(engine, r.ty, ts[0], r.inputs[1], env);
    }
  }

  lemma {:induction false} ScalarTyped(engine: Engine, cat: Catalog, name: string, ts: seq<Expr>, env: Env)
    requires Sound(engine, cat) && AllTyped(engine, ts, env) && ResolveScalar(cat, name, ts).Ok?
    ensures TypedExpr(engine, ResolveScalar(cat, name, ts).value, env)
  {
    var signature := cat.scalar(name, Types(ts)).value;
    CoercedTyped(engine, cat, ts, signature.coercions, env);
    var us := ApplyCoercions(ts, signature.coercions).value;
    var os := EvalAll(engine, us, env);
    forall i | 0 <= i < |os| ensures Typed(os[i], CoercedType(Types(ts), signature.coercions, i)) {
      assert TypedExpr(engine, us[i], env);
    }
    assert SoundScalar(engine, cat, name, Types(ts), os);
    assert Eval(engine, Call(signature.returnType, name, us), env) == ApplyScalar(engine, name, os);
  }

  lemma {:induction false} GuardTyped(engine: Engine, body: Expr, args: seq<Expr>, env: Env)
    requires TypedExpr(engine, body, env)
    ensures TypedExpr(engine, NullGuard(body, args), env) && NullGuard(body, args).ty == body.ty
  {
    if args != [] {
      EquivalentRefl(body.ty);
      IfTyped(engine, body.ty, NullGuard(body, args).inputs, env);
    }
  }

  // ----- Whatever resolves is typed.

  /** Typed, and so is what is under the cast, if it is one. */
  ghost predicate TypedOperand(engine: Engine, t: Expr, env: Env) {
    TypedExpr(engine, t, env) && TypedExpr(engine, Peeled(t), env)
  }

  ghost predicate TypedScope(engine: Engine, p: Scope, env: Env) {
    && (forall x :: x in p.columns ==> TypedOperand(engine, p.columns[x], env))
    && (forall x :: x in p.qualified ==> TypedOperand(engine, p.qualified[x], env))
  }

  /** Every resolved expression, functions inlined, evaluates over a typed row to a value of its
      type or to an error. */
  lemma {:induction false} ResolvedIsTyped(engine: Engine, cat: Catalog, e: UExpr, p: Scope, guard: set<string>, env: Env)
    requires Sound(engine, cat) && TypedScope(engine, p, env) && TypedSubqueries(engine, e)
    requires Resolve(cat, e, p, true, guard).Ok?
    ensures TypedOperand(engine, Resolve(cat, e, p, true, guard).value, env)
    decreases cat.sqlNames - guard, e, 1, 0
  {
    match e
    case Field(input, name) =>
      if !(input.Column? && (input.name, name) in p.qualified) {
        ResolvedIsTyped(engine, cat, input, p, guard, env);
        FieldTyped(engine, Resolve(cat, input, p, true, guard).value, name, env);
      }
    case UCast(ty, _, input) =>
      ResolvedIsTyped(engine, cat, input, p, guard, env);
      CastTyped(engine, cat, ty, Resolve(cat, input, p, true, guard).value, env);
    case URow(names, inputs) =>
      InputsTyped(engine, cat, inputs, p, guard, env);
      RowConstructorTyped(engine, names, ResolveFrom(cat, inputs, 0, p, true, guard).value, env);
    case UCall(_, _) =>
      ResolvedCallTyped(engine, cat, e, p, guard, env);
    case _ =>
  }

  lemma {:induction false} FieldTyped(engine: Engine, t: Expr, name: string, env: Env)
    requires TypedExpr(engine, t, env) && ResolveField(t, name).Ok?
    ensures var r := ResolveField(t, name).value; TypedOperand(engine, r, env)
  {
    var r := ResolveField(t, name).value;
    DereferenceTyped(engine, r.ty, t, r.inputs[1], env);
  }

  lemma {:induction false} InputsTyped(engine: Engine, cat: Catalog, es: seq<UExpr>, p: Scope, guard: set<string>, env: Env)
    requires Sound(engine, cat) && TypedScope(engine, p, env)
    requires forall i :: 0 <= i < |es| ==> TypedSubqueries(engine, es[i])
    requires ResolveFrom(cat, es, 0, p, true, guard).Ok?
    ensures forall i :: 0 <= i < |es| ==> TypedOperand(engine, ResolveFrom(cat, es, 0, p, true, guard).value[i], env)
    decreases cat.sqlNames - guard, es, 0, 1
  {
    forall i | 0 <= i < |es| ensures TypedOperand(engine, ResolveFrom(cat, es, 0, p, true, guard).value[i], env) {
      InputResolved(cat, es, 0, p, true, guard, i);
      ResolvedIsTyped(engine, cat, es[i], p, guard, env);
    }
  }

  lemma {:induction false} ResolvedCallTyped(engine: Engine, cat: Catalog, e: UExpr, p: Scope, guard: set<string>, env: Env)
    requires e.UCall? && Sound(engine, cat) && TypedScope(engine, p, env) && TypedSubqueries(engine, e)
    requires Resolve(cat, e, p, true, guard).Ok?
    ensures TypedOperand(engine, Resolve(cat, e, p, true, guard).value, env)
    decreases cat.sqlNames - guard, e, 0, 2
  {
    if e.name == "in" {
      InUnfolds(cat, e, p, true, guard);
      InFormTyped(engine, cat, IsConstantIn(e.inputs), ResolveFrom(cat, e.inputs, 0, p, true, guard).value, env);
    } else {
      var ts := ResolveFrom(cat, e.inputs, 0, p, true, guard).value;
      InputsTyped(engine, cat, e.inputs, p, guard, env);
      CallTyped(engine, cat, e, e.name, ts, guard, env);
    }
  }

  lemma {:induction false} InFormTyped(engine: Engine, cat: Catalog, constant: bool, ts: seq<Expr>, env: Env)
    requires ts != [] && (constant ==> ConstantTail(ts)) && ResolveInForms(cat, constant, ts).Ok?
    ensures TypedOperand(engine, ResolveInForms(cat, constant, ts).value, env)
  {
    InFormsShape(cat, constant, ts);
    var r := ResolveInForms(cat, constant, ts).value;
    assert r.ty == Boolean && (r.form == In || r.form == InArray);
    TruthTyped(engine, r.form, r.inputs, env);
  }

  lemma {:induction false} CallTyped(
      engine: Engine, cat: Catalog, e: UExpr, name: string, ts: seq<Expr>, guard: set<string>, env: Env)
    requires Sound(engine, cat) && name != "in" && forall i :: 0 <= i < |ts| ==> TypedOperand(engine, ts[i], env)
    requires ResolveCall(cat, e, name, ts, true, guard).Ok?
    ensures TypedOperand(engine, ResolveCall(cat, e, name, ts, true, guard).value, env)
    decreases cat.sqlNames - guard, e, 0, 1
  {
    if ResolveForm(cat, name, ts).value.Some? {
      FormTyped(engine, cat, name, ts, env);
      FormIsNoCast(cat, name, ts);
    } else if cat.sqlFunction(name, Types(ts)).None? {
      ScalarTyped(engine, cat, name, ts, env);
    } else {
      SqlTyped(engine, cat, e, name, cat.sqlFunction(name, Types(ts)).value, ts, guard, env);
    }
  }

  lemma {:induction false} SqlTyped(
      engine: Engine, cat: Catalog, e: UExpr, name: string, f: SqlFunction, ts: seq<Expr>, guard: set<string>, env: Env)
    requires Sound(engine, cat) && forall i :: 0 <= i < |ts| ==> TypedOperand(engine, ts[i], env)
    requires cat.sqlFunction(name, Types(ts)) == Some(f) && ResolveSqlFunction(cat, e, name, ts, true, guard).Ok?
    ensures var r := ResolveSqlFunction(cat, e, name, ts, true, guard).value; r.Some? && TypedOperand(engine, r.value, env)
    decreases cat.sqlNames - guard, e, 0, 0
  {
    SqlUnfolds(cat, e, name, f, ts, true, guard);
    assert cat.sqlNames - (guard + {name}) < cat.sqlNames - guard by { assert name in cat.sqlNames - guard; }
    var args, p := CastArguments(ts, f.argumentTypes), BodyScope(f, CastArguments(ts, f.argumentTypes), true);
    BodyUnfolds(cat, f, args, true, guard + {name});
    ArgumentsTyped(engine, cat, f, ts, env);
    ResolvedIsTyped(engine, cat, f.body, p, guard + {name}, env);
    FinishTyped(engine, cat, f, args, Resolve(cat, f.body, p, true, guard + {name}).value, env);
  }

  lemma {:induction false} ArgumentsTyped(engine: Engine, cat: Catalog, f: SqlFunction, ts: seq<Expr>, env: Env)
    requires Sound(engine, cat) && forall i :: 0 <= i < |ts| ==> TypedOperand(engine, ts[i], env)
    requires |f.argumentNames| == |ts| == |f.argumentTypes| && Distinct(f.argumentNames)
    ensures TypedScope(engine, BodyScope(f, CastArguments(ts, f.argumentTypes), true), env)
  {
    var args, p := CastArguments(ts, f.argumentTypes), BodyScope(f, CastArguments(ts, f.argumentTypes), true);
    forall x | x in p.columns ensures TypedOperand(engine, p.columns[x], env) {
      var i :| 0 <= i < |args| && f.argumentNames[i] == x;
      BindAt(f.argumentNames, args, i);
      CastTyped(engine, cat, f.argumentTypes[i], ts[i], env);
    }
  }

  lemma {:induction false} FinishTyped(engine: Engine, cat: Catalog, f: SqlFunction, args: seq<Expr>, body: Expr, env: Env)
    requires Sound(engine, cat) && TypedOperand(engine, body, env) && FinishBody(cat, f, args, body, true).Ok?
    ensures TypedOperand(engine, FinishBody(cat, f, args, body, true).value, env)
  {
    CastTyped(engine, cat, f.returnType, body, env);
    var result := CastResult(cat, body, f.returnType).value;
    GuardTyped(engine, result, args, env);
    if args != [] { assert !IsCast(NullGuard(result, args)); }
  }
}
