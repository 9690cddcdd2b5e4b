/** Inlining a SQL function preserves meaning: whatever an inlined expression evaluates to over a
    row is what calling the functions gives, wherever the calls themselves settle it. */
module InliningMeaning {
  import opened Wrappers
  import opened Values
  import opened Exprs
  import opened Resolver
  import opened Inlining
  import opened InPredicate
  import opened ResolvedTypes

  // ----- The inputs that settle the outcome of a special form.

  /** The good inputs settle the form's outcome: for IF the condition and the branch taken, for
      COALESCE those up to the first that is not NULL, for AND and OR one that absorbs the others.
      All of them always do. */
  ghost predicate Settles(form: Form, os: seq<Outcome>, good: seq<bool>)
    requires |good| == |os|
  {
    All(good) ||
    match form
    case If =>
      && |os| >= 1 && good[0]
      && (os[0].Val? ==> if os[0].value == BoolV(true) then KeepAt(good, 1) else |os| == 3 ==> good[2])
    case Coalesce => forall i :: 0 <= i < |os| && AllNull(os[..i]) ==> good[i]
    case And => exists i :: 0 <= i < |os| && good[i] && os[i] == Val(BoolV(false))
    case Or => exists i :: 0 <= i < |os| && good[i] && os[i] == Val(BoolV(true))
    case _ => false
  }

  predicate All(good: seq<bool>) {
    forall i :: 0 <= i < |good| ==> good[i]
  }

  /** Inputs a form adds of its own are constants. */
  predicate KeepAt(good: seq<bool>, i: nat) {
    i < |good| ==> good[i]
  }

  ghost predicate AnyNull(os: seq<Outcome>) {
    exists i :: 0 <= i < |os| && os[i].Val? && os[i].value.NullV?
  }

  predicate AllNull(os: seq<Outcome>) {
    forall i :: 0 <= i < |os| ==> os[i].Val? && os[i].value.NullV?
  }

  /** Inputs that settle the outcome leave no say to the others. */
  lemma {:induction false} SettledOutcome(
      engine: Engine, form: Form, ty: Type, types: seq<Type>, os: seq<Outcome>, ps: seq<Outcome>, good: seq<bool>)
    requires |types| == |os| == |ps| == |good| && Settles(form, ps, good)
    requires forall i :: 0 <= i < |ps| && good[i] ==> os[i] == ps[i]
    ensures Combine(engine, form, ty, types, os) == Combine(engine, form, ty, types, ps)
  {
    if All(good) {
      assert os == ps;
    } else if form == Coalesce {
      SettledCoalesce(ty, os, ps);
    }
  }

  lemma {:induction false} SettledCoalesce(ty: Type, os: seq<Outcome>, ps: seq<Outcome>)
    requires |os| == |ps| && forall i :: 0 <= i < |ps| && AllNull(ps[..i]) ==> os[i] == ps[i]
    ensures FirstNonNull(ty, os) == FirstNonNull(ty, ps)
  {
    if ps != [] {
      assert AllNull(ps[..0]);
      if AllNull(ps[..1]) {
        forall i | 0 <= i < |ps| - 1 && AllNull(ps[1..][..i]) ensures os[1..][i] == ps[1..][i] {
          assert ps[..i + 1] == ps[..1] + ps[1..][..i];
        }
        SettledCoalesce(ty, os[1..], ps[1..]);
      } else {
        assert ps[..1] == [ps[0]];
      }
    }
  }

  lemma {:induction false} SettlesMore(form: Form, os: seq<Outcome>, good: seq<bool>, better: seq<bool>)
    requires |os| == |good| == |better| && Settles(form, os, good)
    requires forall i :: 0 <= i < |good| && good[i] ==> better[i]
    ensures Settles(form, os, better)
  {
  }

  function Answers(os: seq<Outcome>): (r: seq<bool>)
    ensures |r| == |os| && forall i :: 0 <= i < |os| ==> r[i] == os[i].Val?
  {
    seq(|os|, i requires 0 <= i < |os| => os[i].Val?)
  }

  /** Other than TRY, a form that has a value is settled by the inputs that have one. */
  lemma {:induction false} ValueSettles(engine: Engine, form: Form, ty: Type, types: seq<Type>, os: seq<Outcome>)
    requires |types| == |os| && form != Try && Combine(engine, form, ty, types, os).Val?
    ensures Settles(form, os, Answers(os))
  {
    if form == Coalesce {
      ValueSettlesCoalesce(ty, os);
    } else if form == And || form == Or {
      if i :| 0 <= i < |os| && os[i] == Val(BoolV(form == Or)) { assert Answers(os)[i]; }
    } else if form != If {
      assert !AnyErr(os);
    }
  }

  lemma {:induction false} ValueSettlesCoalesce(ty: Type, os: seq<Outcome>)
    requires FirstNonNull(ty, os).Val?
    ensures forall i :: 0 <= i < |os| && AllNull(os[..i]) ==> os[i].Val?
  {
    if os != [] && AllNull(os[..1]) {
      ValueSettlesCoalesce(ty, os[1..]);
      forall i | 1 <= i < |os| && AllNull(os[..i]) ensures os[i].Val? {
        assert os[..i][1..] == os[1..][..i - 1];
        assert os[1..][i - 1].Val?;
      }
    } else if os != [] {
      forall i | 1 <= i < |os| ensures !AllNull(os[..i]) { assert os[..1] == os[..i][..1]; }
    }
  }

  // ----- What the calls themselves settle.

  predicate TryFree(e: Expr) {
    match e
    case Call(_, _, inputs) => forall i :: 0 <= i < |inputs| ==> TryFree(inputs[i])
    case Special(_, form, inputs) => form != Try && forall i :: 0 <= i < |inputs| ==> TryFree(inputs[i])
    case SqlCall(_, _, args, body, _) => TryFree(body) && forall i :: 0 <= i < |args| ==> TryFree(args[i])
    case CoercedSubquery(_, query) => TryFree(query)
    case _ => true
  }

  /** When the inlined form must have the outcome of the reference. Either the reference has a
      value and no TRY hides an error; or at each call that is reached: when all arguments have
      values, the null guard answers or the body over those values is itself comparable; and
      when an argument fails, a null guard meets no NULL among the others, and a body without
      one is strict or at any rate fails over the arguments' outcomes. Inputs of a special form
      that others settle are not reached. */
  ghost predicate Comparable(engine: Engine, u: Expr, env: Env) {
    (TryFree(u) && Eval(engine, u, env).Val?) ||
    match u
    case Call(_, _, inputs) => forall i :: 0 <= i < |inputs| ==> Comparable(engine, inputs[i], env)
    case Special(_, form, inputs) =>
      Settles(form, EvalAll(engine, inputs, env),
        seq(|inputs|, i requires 0 <= i < |inputs| => Comparable(engine, inputs[i], env)))
    case CoercedSubquery(_, query) => Comparable(engine, query, env)
    case SqlCall(_, params, args, body, nullOnNull) =>
      && (forall i :: 0 <= i < |args| ==> Comparable(engine, args[i], env))
      && var os := EvalAll(engine, args, env);
         var inner := Bind(params, os);
         if AnyErr(os) then
           if nullOnNull then !AnyNull(os)
           else Comparable(engine, body, inner) && (Strict(body) || Eval(engine, body, inner).Err?)
         else
           (nullOnNull && AnyNull(os)) || Comparable(engine, body, inner)
    case _ => true
  }

  ghost function ComparableEach(engine: Engine, us: seq<Expr>, env: Env): (r: seq<bool>)
    ensures |r| == |us| && forall i :: 0 <= i < |us| ==> r[i] == Comparable(engine, us[i], env)
  {
    seq(|us|, i requires 0 <= i < |us| => Comparable(engine, us[i], env))
  }

  lemma {:induction false} ComparableSettles(engine: Engine, ty: Type, form: Form, us: seq<Expr>, env: Env)
    requires Comparable(engine, Special(ty, form, us), env)
    ensures Settles(form, EvalAll(engine, us, env), ComparableEach(engine, us, env))
  {
    var u, ps := Special(ty, form, us), EvalAll(engine, us, env);
    if TryFree(u) && Eval(engine, u, env).Val? {
      ValueSettles(engine, form, ty, Types(us), ps);
      forall i | 0 <= i < |us| && Answers(ps)[i] ensures ComparableEach(engine, us, env)[i] { assert TryFree(us[i]); }
      SettlesMore(form, ps, Answers(ps), ComparableEach(engine, us, env));
    } else {
      assert ComparableEach(engine, us, env)
          == seq(|us|, i requires 0 <= i < |us| => Comparable(engine, us[i], env));
    }
  }

  /** Every called function has a null guard over a single argument, or a body that evaluates all
      it says. */
  predicate StrictBodies(e: Expr) {
    match e
    case Call(_, _, inputs) => forall i :: 0 <= i < |inputs| ==> StrictBodies(inputs[i])
    case Special(_, _, inputs) => forall i :: 0 <= i < |inputs| ==> StrictBodies(inputs[i])
    case SqlCall(_, _, args, body, nullOnNull) =>
      && StrictBodies(body) && (if nullOnNull then |args| <= 1 else Strict(body))
      && forall i :: 0 <= i < |args| ==> StrictBodies(args[i])
    case CoercedSubquery(_, query) => StrictBodies(query)
    case _ => true
  }

  /** Then the forms are comparable over every row. */
  lemma {:induction false} StrictBodiesComparable(engine: Engine, u: Expr, env: Env)
    requires StrictBodies(u)
    ensures Comparable(engine, u, env)
    decreases u
  {
    match u
    case Call(_, _, inputs) =>
      forall i | 0 <= i < |inputs| ensures Comparable(engine, inputs[i], env) { StrictBodiesComparable(engine, inputs[i], env); }
    case Special(_, _, inputs) =>
      forall i | 0 <= i < |inputs| ensures Comparable(engine, inputs[i], env) { StrictBodiesComparable(engine, inputs[i], env); }
    case CoercedSubquery(_, query) => StrictBodiesComparable(engine, query, env);
    case SqlCall(_, params, args, body, _) =>
      forall i | 0 <= i < |args| ensures Comparable(engine, args[i], env) { StrictBodiesComparable(engine, args[i], env); }
      StrictBodiesComparable(engine, body, Bind(params, EvalAll(engine, args, env)));
    case _ =>
  }

  /** Every argument of every call that is reached has a value. */
  ghost predicate Answered(engine: Engine, u: Expr, env: Env) {
    match u
    case Call(_, _, inputs) => forall i :: 0 <= i < |inputs| ==> Answered(engine, inputs[i], env)
    case Special(_, form, inputs) =>
      Settles(form, EvalAll(engine, inputs, env),
        seq(|inputs|, i requires 0 <= i < |inputs| => Answered(engine, inputs[i], env)))
    case CoercedSubquery(_, query) => Answered(engine, query, env)
    case SqlCall(_, params, args, body, nullOnNull) =>
      && (forall i :: 0 <= i < |args| ==> Answered(engine, args[i], env) && Eval(engine, args[i], env).Val?)
      && var os := EvalAll(engine, args, env);
         (nullOnNull && AnyNull(os)) || Answered(engine, body, Bind(params, os))
    case _ => true
  }

  /** Then the forms are comparable, whatever the bodies do: they may be lazy, fail or use TRY. */
  lemma {:induction false} AnsweredComparable(engine: Engine, u: Expr, env: Env)
    requires Answered(engine, u, env)
    ensures Comparable(engine, u, env)
    decreases u
  {
    match u
    case Call(_, _, inputs) =>
      forall i | 0 <= i < |inputs| ensures Comparable(engine, inputs[i], env) { AnsweredComparable(engine, inputs[i], env); }
    case Special(_, form, inputs) =>
      var answered := seq(|inputs|, i requires 0 <= i < |inputs| => Answered(engine, inputs[i], env));
      var comparable := seq(|inputs|, i requires 0 <= i < |inputs| => Comparable(engine, inputs[i], env));
      forall i | 0 <= i < |inputs| && answered[i] ensures comparable[i] { AnsweredComparable(engine, inputs[i], env); }
      SettlesMore(form, EvalAll(engine, inputs, env), answered, comparable);
    case CoercedSubquery(_, query) => AnsweredComparable(engine, query, env);
    case SqlCall(_, params, args, body, nullOnNull) =>
      forall i | 0 <= i < |args| ensures Comparable(engine, args[i], env) { AnsweredComparable(engine, args[i], env); }
      var os := EvalAll(engine, args, env);
      if !(nullOnNull && AnyNull(os)) { AnsweredComparable(engine, body, Bind(params, os)); }
    case _ =>
  }

  // ----- Agreement of an inlined expression with its reference.

  /** The row an inlined expression is evaluated over, and the environment its reference is: the
      same row, or in a body the outcomes of the arguments. */
  datatype Sides = Sides(engine: Engine, outer: Env, inner: Env)

  /** One type, one constant; and one outcome where the two are comparable, if IN keeps its meaning. */
  ghost predicate Agree(s: Sides, t: Expr, u: Expr, keep: bool) {
    && t.ty == u.ty && (t.Constant? && u.Constant? ==> t == u)
    && (keep && Comparable(s.engine, u, s.inner) ==> Eval(s.engine, t, s.outer) == Eval(s.engine, u, s.inner))
  }

  ghost predicate AllAgree(s: Sides, ts: seq<Expr>, us: seq<Expr>, keeps: seq<bool>) {
    |ts| == |us| && forall i :: 0 <= i < |ts| ==> Agree(s, ts[i], us[i], KeepAt(keeps, i))
  }

  lemma {:induction false} AgreeingTypes(s: Sides, ts: seq<Expr>, us: seq<Expr>, keeps: seq<bool>)
    requires AllAgree(s, ts, us, keeps)
    ensures Types(ts) == Types(us)
  {
  }

  /** The inputs in which IN keeps its meaning are all, or settle the form's outcome. */
  ghost predicate FormKeeps(s: Sides, form: Form, us: seq<Expr>, keeps: seq<bool>) {
    All(keeps) || Settles(form, EvalAll(s.engine, us, s.inner), Good(s, us, keeps))
  }

  ghost function Good(s: Sides, us: seq<Expr>, keeps: seq<bool>): (r: seq<bool>)
    ensures |r| == |us|
    ensures forall i :: 0 <= i < |us| ==> r[i] == (KeepAt(keeps, i) && Comparable(s.engine, us[i], s.inner))
  {
    seq(|us|, i requires 0 <= i < |us| => KeepAt(keeps, i) && Comparable(s.engine, us[i], s.inner))
  }

  lemma {:induction false} SpecialAgrees(
      s: Sides, ty: Type, form: Form, ts: seq<Expr>, us: seq<Expr>, keeps: seq<bool>, keep: bool)
    requires AllAgree(s, ts, us, keeps) && (keep ==> FormKeeps(s, form, us, keeps))
    ensures Agree(s, Special(ty, form, ts), Special(ty, form, us), keep)
  {
    if keep && Comparable(s.engine, Special(ty, form, us), s.inner) {
      var os, ps, good := EvalAll(s.engine, ts, s.outer), EvalAll(s.engine, us, s.inner), Good(s, us, keeps);
      if All(keeps) {
        ComparableSettles(s.engine, ty, form, us, s.inner);
        SettlesMore(form, ps, ComparableEach(s.engine, us, s.inner), good);
      }
      AgreeingTypes(s, ts, us, keeps);
      SettledOutcome(s.engine, form, ty, Types(us), os, ps, good);
    }
  }

  lemma {:induction false} CallAgrees(
      s: Sides, ty: Type, name: string, ts: seq<Expr>, us: seq<Expr>, keeps: seq<bool>, keep: bool)
    requires AllAgree(s, ts, us, keeps) && (keep ==> All(keeps))
    ensures Agree(s, Call(ty, name, ts), Call(ty, name, us), keep)
  {
    var u := Call(ty, name, us);
    if keep && Comparable(s.engine, u, s.inner) {
      var os, ps := EvalAll(s.engine, ts, s.outer), EvalAll(s.engine, us, s.inner);
      if TryFree(u) && Eval(s.engine, u, s.inner).Val? {
        assert !AnyErr(ps);
        assert forall i :: 0 <= i < |ps| ==> ps[i].Val? && TryFree(us[i]);
      }
      assert os == ps;
    }
  }

  lemma {:induction false} CastAgrees(s: Sides, ty: Type, form: Form, t: Expr, u: Expr, keep: bool)
    requires Agree(s, t, u, keep)
    ensures Agree(s, Special(ty, form, [t]), Special(ty, form, [u]), keep)
  {
    SpecialAgrees(s, ty, form, [t], [u], [keep], keep);
  }

  lemma {:induction false} CoercionsAgree(s: Sides, ts: seq<Expr>, us: seq<Expr>, coercions: seq<Option<Type>>, keeps: seq<bool>)
    requires AllAgree(s, ts, us, keeps)
    requires ApplyCoercions(ts, coercions).Ok? && ApplyCoercions(us, coercions).Ok?
    ensures AllAgree(s, ApplyCoercions(ts, coercions).value, ApplyCoercions(us, coercions).value, keeps)
  {
    forall i | 0 <= i < |ts| && coercions != []
      ensures Agree(s, ApplyCoercions(ts, coercions).value[i], ApplyCoercions(us, coercions).value[i], KeepAt(keeps, i))
    {
      if coercions[i].Some? { CastAgrees(s, coercions[i].value, Cast, ts[i], us[i], KeepAt(keeps, i)); }
    }
  }

  lemma {:induction false} CoercedFormAgrees(
      s: Sides, cat: Catalog, form: Form, name: string, ts: seq<Expr>, us: seq<Expr>, keeps: seq<bool>, keep: bool)
    requires AllAgree(s, ts, us, keeps)
    requires ResolveFormWithCoercions(cat, form, name, ts).Ok? && ResolveFormWithCoercions(cat, form, name, us).Ok?
    requires keep ==> FormKeeps(s, form, ResolveFormWithCoercions(cat, form, name, us).value.inputs, keeps)
    ensures Agree(s, ResolveFormWithCoercions(cat, form, name, ts).value,
                  ResolveFormWithCoercions(cat, form, name, us).value, keep)
  {
    AgreeingTypes(s, ts, us, keeps);
    var signature := cat.form(name, Types(us)).value;
    CoercionsAgree(s, ts, us, signature.coercions, keeps);
    SpecialAgrees(s, signature.returnType, form,
      ApplyCoercions(ts, signature.coercions).value, ApplyCoercions(us, signature.coercions).value, keeps, keep);
  }

  /** A special form other than IN, its keeping inputs known. */
  ghost predicate SpecialKeeps(s: Sides, r: Expr, keeps: seq<bool>) {
    r.Special? && FormKeeps(s, r.form, r.inputs, keeps)
  }

  lemma {:induction false} FormAgrees(
      s: Sides, cat: Catalog, name: string, ts: seq<Expr>, us: seq<Expr>, keeps: seq<bool>, keep: bool)
    requires AllAgree(s, ts, us, keeps) && name != "in"
    requires ResolveForm(cat, name, ts).Ok? && ResolveForm(cat, name, us).Ok?
    requires keep && ResolveForm(cat, name, us).value.Some? ==> SpecialKeeps(s, ResolveForm(cat, name, us).value.value, keeps)
    ensures ResolveForm(cat, name, ts).value.Some? == ResolveForm(cat, name, us).value.Some?
    ensures ResolveForm(cat, name, us).value.Some? ==>
              Agree(s, ResolveForm(cat, name, ts).value.value, ResolveForm(cat, name, us).value.value, keep)
  {
    AgreeingTypes(s, ts, us, keeps);
    if name == "and" {
      CoercedFormAgrees(s, cat, And, name, ts, us, keeps, keep);
    } else if name == "or" {
      CoercedFormAgrees(s, cat, Or, name, ts, us, keeps, keep);
    } else if name == "coalesce" {
      CoercedFormAgrees(s, cat, Coalesce, name, ts, us, keeps, keep);
    } else if name == "if" {
      CoercedFormAgrees(s, cat, If, name, WithNullElse(ts), WithNullElse(us), keeps, keep);
    } else {
      OtherFormAgrees(s, cat, name, ts, us, keeps, keep);
    }
  }

  lemma {:induction false} OtherFormAgrees(
      s: Sides, cat: Catalog, name: string, ts: seq<Expr>, us: seq<Expr>, keeps: seq<bool>, keep: bool)
    requires AllAgree(s, ts, us, keeps) && name !in {"in", "and", "or", "coalesce", "if"}
    requires ResolveForm(cat, name, ts).Ok? && ResolveForm(cat, name, us).Ok?
    requires keep && ResolveForm(cat, name, us).value.Some? ==> SpecialKeeps(s, ResolveForm(cat, name, us).value.value, keeps)
    ensures ResolveForm(cat, name, ts).value.Some? == ResolveForm(cat, name, us).value.Some?
    ensures ResolveForm(cat, name, us).value.Some? ==>
              Agree(s, ResolveForm(cat, name, ts).value.value, ResolveForm(cat, name, us).value.value, keep)
  {
    AgreeingTypes(s, ts, us, keeps);
    if name == "row_constructor" {
      assert seq(|ts|, i => "") == seq(|us|, i => "");
      SpecialAgrees(s, Row(seq(|us|, i => ""), Types(us)), RowConstructor, ts, us, keeps, keep);
    } else if name == "try" {
      SpecialAgrees(s, us[0].ty, Try, ts, us, keeps, keep);
    } else if name == "subscript" && |us| > 0 && us[0].ty.Row? {
      SubscriptAgrees(s, ts, us, keeps, keep);
    }
  }

  lemma {:induction false} SubscriptAgrees(s: Sides, ts: seq<Expr>, us: seq<Expr>, keeps: seq<bool>, keep: bool)
    requires AllAgree(s, ts, us, keeps) && us != [] && us[0].ty.Row?
    requires ResolveSubscript(ts).Ok? && ResolveSubscript(us).Ok?
    requires keep ==> SpecialKeeps(s, ResolveSubscript(us).value, keeps)
    ensures Agree(s, ResolveSubscript(ts).value, ResolveSubscript(us).value, keep)
  {
    assert ts[1] == us[1];
    var r := ResolveSubscript(us).value;
    SpecialAgrees(s, r.ty, Dereference, [ts[0], r.inputs[1]], r.inputs, keeps, keep);
  }

  lemma {:induction false} FieldAgrees(s: Sides, t: Expr, u: Expr, name: string, keep: bool)
    requires Agree(s, t, u, keep) && ResolveField(t, name).Ok? && ResolveField(u, name).Ok?
    ensures Agree(s, ResolveField(t, name).value, ResolveField(u, name).value, keep)
  {
    var r := ResolveField(u, name).value;
    SpecialAgrees(s, r.ty, Dereference, [t, r.inputs[1]], r.inputs, [keep], keep);
  }

  lemma {:induction false} ArgumentsAgree(s: Sides, ts: seq<Expr>, us: seq<Expr>, types: seq<Type>, keeps: seq<bool>)
    requires AllAgree(s, ts, us, keeps) && |types| == |us|
    ensures AllAgree(s, CastArguments(ts, types), CastArguments(us, types), keeps)
  {
    forall i | 0 <= i < |us| ensures Agree(s, CastArguments(ts, types)[i], CastArguments(us, types)[i], KeepAt(keeps, i)) {
      CastAgrees(s, types[i], Cast, ts[i], us[i], KeepAt(keeps, i));
    }
  }

  // ----- The null guard.

  lemma {:induction false} NullTestMeans(engine: Engine, arg: Expr, env: Env)
    requires Eval(engine, arg, env).Val?
    ensures Eval(engine, Call(Boolean, "is_null", [arg]), env) == Val(BoolV(Eval(engine, arg, env).value.NullV?))
  {
    var o := Eval(engine, arg, env);
    assert EvalAll(engine, [arg], env) == [o];
    var vs := ValuesOf([o]).value;
    assert [o][0] == Val(vs[0]);
  }

  lemma {:induction false} ConditionMeans(engine: Engine, args: seq<Expr>, env: Env)
    requires forall i :: 0 <= i < |args| ==> Eval(engine, args[i], env).Val?
    ensures Eval(engine, Special(Boolean, Or, NullTests(args)), env) ==
            Val(BoolV(exists i :: 0 <= i < |args| && Eval(engine, args[i], env).value.NullV?))
  {
    var tests := NullTests(args);
    var os := EvalAll(engine, tests, env);
    forall i | 0 <= i < |args| ensures os[i] == Val(BoolV(Eval(engine, args[i], env).value.NullV?)) {
      NullTestMeans(engine, args[i], env);
    }
    if i :| 0 <= i < |args| && Eval(engine, args[i], env).value.NullV? {
      assert os[i] == Val(BoolV(true));
    }
    assert Eval(engine, Special(Boolean, Or, tests), env) == AndOr(false, os);
  }

  lemma {:induction false} GuardCondition(engine: Engine, args: seq<Expr>, env: Env)
    requires args != [] && forall i :: 0 <= i < |args| ==> Eval(engine, args[i], env).Val?
    ensures var tests := NullTests(args);
            Eval(engine, if |args| == 1 then tests[0] else Special(Boolean, Or, tests), env) ==
            Val(BoolV(exists i :: 0 <= i < |args| && Eval(engine, args[i], env).value.NullV?))
  {
    if |args| == 1 { NullTestMeans(engine, args[0], env); } else { ConditionMeans(engine, args, env); }
  }

  /** The null guard yields NULL when an argument is NULL, and the body otherwise. */
  lemma {:induction false} GuardMeans(engine: Engine, body: Expr, args: seq<Expr>, env: Env)
    requires forall i :: 0 <= i < |args| ==> Eval(engine, args[i], env).Val?
    ensures Eval(engine, NullGuard(body, args), env) ==
            if exists i :: 0 <= i < |args| && Eval(engine, args[i], env).value.NullV?
            then Val(NullV(KindOf(body.ty))) else Eval(engine, body, env)
  {
    if args != [] {
      var g := NullGuard(body, args);
      var os := EvalAll(engine, g.inputs, env);
      GuardCondition(engine, args, env);
      assert os[0] == Val(BoolV(exists i :: 0 <= i < |args| && Eval(engine, args[i], env).value.NullV?));
      assert os[1] == Val(NullV(KindOf(body.ty))) && os[2] == Eval(engine, body, env);
      assert Eval(engine, g, env) == Combine(engine, If, body.ty, Types(g.inputs), os);
    }
  }

  /** When an argument fails, the call fails; the guarded form fails too exactly when no other
      argument is NULL, whatever the body and however many arguments there are. */
  lemma {:induction false} NullGuardExact(
      engine: Engine, ty: Type, names: seq<string>, us: seq<Expr>, u: Expr, args: seq<Expr>, body: Expr, env: Env)
    requires EvalAll(engine, args, env) == EvalAll(engine, us, env) && AnyErr(EvalAll(engine, us, env)) && body.ty == ty
    ensures Eval(engine, SqlCall(ty, names, us, u, true), env) == Err
    ensures Eval(engine, NullGuard(body, args), env) == Eval(engine, SqlCall(ty, names, us, u, true), env)
       <==> !AnyNull(EvalAll(engine, args, env))
  {
    FailingGuard(engine, args, body, env);
  }

  lemma {:induction false} FailingGuard(engine: Engine, args: seq<Expr>, body: Expr, env: Env)
    requires AnyErr(EvalAll(engine, args, env))
    ensures Eval(engine, NullGuard(body, args), env)
         == if AnyNull(EvalAll(engine, args, env)) then Val(NullV(KindOf(body.ty))) else Err
  {
    var os := EvalAll(engine, args, env);
    var g := NullGuard(body, args);
    assert |args| > 0 && g.inputs[1] == Constant(body.ty, NullV(KindOf(body.ty)));
    FailingCondition(engine, args, env);
    var gs := EvalAll(engine, g.inputs, env);
    assert gs[0] == if AnyNull(os) then Val(BoolV(true)) else Err;
    assert Eval(engine, g, env) == Combine(engine, If, body.ty, Types(g.inputs), gs);
  }

  lemma {:induction false} NullTestOutcome(engine: Engine, arg: Expr, env: Env)
    ensures var o := Eval(engine, arg, env);
            Eval(engine, Call(Boolean, "is_null", [arg]), env) == if o.Err? then Err else Val(BoolV(o.value.NullV?))
  {
    if Eval(engine, arg, env).Err? {
      assert EvalAll(engine, [arg], env)[0].Err?;
    } else {
      NullTestMeans(engine, arg, env);
    }
  }

  lemma {:induction false} NullTestOutcomes(engine: Engine, args: seq<Expr>, env: Env)
    ensures var os, ps := EvalAll(engine, args, env), EvalAll(engine, NullTests(args), env);
            forall i :: 0 <= i < |args| ==> ps[i] == if os[i].Err? then Err else Val(BoolV(os[i].value.NullV?))
  {
    forall i | 0 <= i < |args|
      ensures var o := Eval(engine, args[i], env);
              EvalAll(engine, NullTests(args), env)[i] == if o.Err? then Err else Val(BoolV(o.value.NullV?))
    {
      NullTestOutcome(engine, args[i], env);
    }
  }

  /** The guard's condition, when an argument fails: true past a NULL, else an error. */
  lemma {:induction false} FailingCondition(engine: Engine, args: seq<Expr>, env: Env)
    requires AnyErr(EvalAll(engine, args, env))
    ensures var os, tests := EvalAll(engine, args, env), NullTests(args);
            Eval(engine, if |args| == 1 then tests[0] else Special(Boolean, Or, tests), env)
            == if AnyNull(os) then Val(BoolV(true)) else Err
  {
    var os, tests := EvalAll(engine, args, env), NullTests(args);
    var ps := EvalAll(engine, tests, env);
    NullTestOutcomes(engine, args, env);
    var failing :| 0 <= failing < |os| && os[failing].Err?;
    assert ps[failing].Err?;
    if AnyNull(os) {
      var i :| 0 <= i < |os| && os[i].Val? && os[i].value.NullV?;
      assert ps[i] == Val(BoolV(true));
    }
    assert Eval(engine, Special(Boolean, Or, tests), env) == AndOr(false, ps);
  }

  // ----- Calls of SQL functions.

  lemma {:induction false} CallOutcome(
      engine: Engine, ty: Type, names: seq<string>, us: seq<Expr>, u: Expr, nullOnNull: bool, env: Env)
    requires forall i :: 0 <= i < |us| ==> Eval(engine, us[i], env).Val?
    ensures Eval(engine, SqlCall(ty, names, us, u, nullOnNull), env) ==
            if nullOnNull && exists i :: 0 <= i < |us| && Eval(engine, us[i], env).value.NullV?
            then Val(NullV(KindOf(ty))) else Eval(engine, u, Bind(names, EvalAll(engine, us, env)))
  {
    var ps := EvalAll(engine, us, env);
    var vs := ValuesOf(ps).value;
    assert forall i :: 0 <= i < |vs| ==> ps[i] == Val(vs[i]) && Eval(engine, us[i], env) == Val(vs[i]);
  }

  /** Over comparable arguments the two evaluate to one list of outcomes. */
  lemma {:induction false} ArgumentOutcomes(s: Sides, ts: seq<Expr>, us: seq<Expr>, keeps: seq<bool>)
    requires AllAgree(s, ts, us, keeps) && All(keeps)
    requires forall i :: 0 <= i < |us| ==> Comparable(s.engine, us[i], s.inner)
    ensures EvalAll(s.engine, ts, s.outer) == EvalAll(s.engine, us, s.inner)
  {
    forall i | 0 <= i < |us| ensures EvalAll(s.engine, ts, s.outer)[i] == EvalAll(s.engine, us, s.inner)[i] {
      assert Agree(s, ts[i], us[i], KeepAt(keeps, i));
    }
  }

  lemma {:induction false} ArgumentsComparable(
      engine: Engine, ty: Type, names: seq<string>, us: seq<Expr>, u: Expr, nullOnNull: bool, env: Env)
    requires Comparable(engine, SqlCall(ty, names, us, u, nullOnNull), env)
    ensures forall i :: 0 <= i < |us| ==> Comparable(engine, us[i], env)
  {
    var call, ps := SqlCall(ty, names, us, u, nullOnNull), EvalAll(engine, us, env);
    if TryFree(call) && Eval(engine, call, env).Val? {
      assert !AnyErr(ps);
      assert forall i :: 0 <= i < |us| ==> ps[i].Val? && TryFree(us[i]);
    }
  }

  /** The null guard answers a call before its body: with NULL, or with an argument's error. */
  ghost predicate GuardAnswers(nullOnNull: bool, os: seq<Outcome>) {
    nullOnNull && (AnyErr(os) || AnyNull(os))
  }

  /** Calling a body over argument outcomes is what the guarded body computes that is inlined over
      the arguments themselves. */
  lemma {:induction false} SqlCallAgrees(
      s: Sides, names: seq<string>, ts: seq<Expr>, us: seq<Expr>, t: Expr, u: Expr, nullOnNull: bool,
      keeps: seq<bool>, bodyKeeps: bool, keep: bool)
    requires AllAgree(s, ts, us, keeps) && |names| == |ts| && Distinct(names)
    requires Agree(Sides(s.engine, s.outer, Bind(names, EvalAll(s.engine, ts, s.outer))), t, u, bodyKeeps)
    requires forall i :: 0 <= i < |names| ==> Contains(u, InputRef(ts[i].ty, names[i]))
    requires keep ==> All(keeps) && (bodyKeeps || GuardAnswers(nullOnNull, EvalAll(s.engine, ts, s.outer)))
    ensures Agree(s, if nullOnNull then NullGuard(t, ts) else t, SqlCall(u.ty, names, us, u, nullOnNull), keep)
  {
    if keep && Comparable(s.engine, SqlCall(u.ty, names, us, u, nullOnNull), s.inner) {
      ArgumentsComparable(s.engine, u.ty, names, us, u, nullOnNull, s.inner);
      ArgumentOutcomes(s, ts, us, keeps);
      if AnyErr(EvalAll(s.engine, us, s.inner)) {
        FailedCallAgrees(s, names, ts, us, t, u, nullOnNull, bodyKeeps);
      } else {
        AnsweredCallAgrees(s, names, ts, us, t, u, nullOnNull, bodyKeeps);
      }
    }
    if nullOnNull && ts != [] { assert NullGuard(t, ts).Special?; }
  }

  lemma {:induction false} FailedCallAgrees(
      s: Sides, names: seq<string>, ts: seq<Expr>, us: seq<Expr>, t: Expr, u: Expr, nullOnNull: bool, bodyKeeps: bool)
    requires |names| == |ts| == |us| && Distinct(names) && t.ty == u.ty
    requires EvalAll(s.engine, ts, s.outer) == EvalAll(s.engine, us, s.inner) && AnyErr(EvalAll(s.engine, us, s.inner))
    requires forall i :: 0 <= i < |names| ==> Contains(u, InputRef(ts[i].ty, names[i]))
    requires Comparable(s.engine, SqlCall(u.ty, names, us, u, nullOnNull), s.inner) && (bodyKeeps || nullOnNull)
    requires var inner := Bind(names, EvalAll(s.engine, us, s.inner));
             bodyKeeps && Comparable(s.engine, u, inner) ==> Eval(s.engine, t, s.outer) == Eval(s.engine, u, inner)
    ensures Eval(s.engine, if nullOnNull then NullGuard(t, ts) else t, s.outer) ==
            Eval(s.engine, SqlCall(u.ty, names, us, u, nullOnNull), s.inner)
  {
    var ps := EvalAll(s.engine, us, s.inner);
    assert Eval(s.engine, SqlCall(u.ty, names, us, u, nullOnNull), s.inner).Err?;
    if nullOnNull {
      FailingGuard(s.engine, ts, t, s.outer);
    } else if Strict(u) {
      var i :| 0 <= i < |ps| && ps[i].Err?;
      BindAt(names, ps, i);
      ContainedError(s.engine, u, InputRef(ts[i].ty, names[i]), Bind(names, ps));
    }
  }

  lemma {:induction false} AnsweredCallAgrees(
      s: Sides, names: seq<string>, ts: seq<Expr>, us: seq<Expr>, t: Expr, u: Expr, nullOnNull: bool, bodyKeeps: bool)
    requires |names| == |ts| == |us| && t.ty == u.ty
    requires EvalAll(s.engine, ts, s.outer) == EvalAll(s.engine, us, s.inner) && !AnyErr(EvalAll(s.engine, us, s.inner))
    requires Comparable(s.engine, SqlCall(u.ty, names, us, u, nullOnNull), s.inner)
    requires bodyKeeps || (nullOnNull && AnyNull(EvalAll(s.engine, us, s.inner)))
    requires var inner := Bind(names, EvalAll(s.engine, us, s.inner));
             bodyKeeps && Comparable(s.engine, u, inner) ==> Eval(s.engine, t, s.outer) == Eval(s.engine, u, inner)
    ensures Eval(s.engine, if nullOnNull then NullGuard(t, ts) else t, s.outer) ==
            Eval(s.engine, SqlCall(u.ty, names, us, u, nullOnNull), s.inner)
  {
    var ps := EvalAll(s.engine, us, s.inner);
    forall i | 0 <= i < |us| ensures Eval(s.engine, ts[i], s.outer) == Eval(s.engine, us[i], s.inner) == ps[i] && ps[i].Val? {
      assert EvalAll(s.engine, ts, s.outer)[i] == ps[i];
    }
    CallOutcome(s.engine, u.ty, names, us, u, nullOnNull, s.inner);
    if !(nullOnNull && AnyNull(ps)) { BodyComparable(s.engine, names, us, u, nullOnNull, s.inner); }
    if nullOnNull { GuardMeans(s.engine, t, ts, s.outer); }
  }

  lemma {:induction false} BodyComparable(
      engine: Engine, names: seq<string>, us: seq<Expr>, u: Expr, nullOnNull: bool, env: Env)
    requires Comparable(engine, SqlCall(u.ty, names, us, u, nullOnNull), env)
    requires !AnyErr(EvalAll(engine, us, env)) && !(nullOnNull && AnyNull(EvalAll(engine, us, env)))
    ensures Comparable(engine, u, Bind(names, EvalAll(engine, us, env)))
  {
    var ps := EvalAll(engine, us, env);
    forall i | 0 <= i < |us| ensures Eval(engine, us[i], env).Val? { assert ps[i].Val?; }
    CallOutcome(engine, u.ty, names, us, u, nullOnNull, env);
  }

  // ----- IN, which looks inside operands that are casts.

  /** Casting what is under the cast has the outcome of casting the cast itself. */
  ghost predicate PeelKeeps(engine: Engine, t: Expr, ty: Type, env: Env) {
    Eval(engine, CastTo(ty, Peeled(t)), env) == Eval(engine, CastTo(ty, t), env)
  }

  /** Coercing the operand keeps its meaning: it needs no coercion, inlining made it no cast, or
      replacing that cast changes nothing. */
  ghost predicate OperandKeeps(s: Sides, t: Expr, u: Expr, ty: Type) {
    Equivalent(u.ty, ty) || !IsCast(t) || IsCast(u) || PeelKeeps(s.engine, t, ty, s.outer)
  }

  ghost predicate OperandsKeep(s: Sides, cat: Catalog, ts: seq<Expr>, us: seq<Expr>) {
    us != [] && |ts| == |us| ==>
      var common := CommonType(cat.superType, us[0].ty, Types(us[1..]));
      common.Some? ==> forall i :: 0 <= i < |us| ==> OperandKeeps(s, ts[i], us[i], common.value)
  }

  /** Agreement also under the cast, if the reference is one. */
  ghost predicate OperandAgrees(s: Sides, t: Expr, u: Expr, keep: bool) {
    Agree(s, t, u, keep) && (IsCast(u) ==> IsCast(t) && Agree(s, Peeled(t), Peeled(u), keep))
  }

  /** A subquery is cast under a projection, to the same effect. */
  lemma {:induction false} CoercedOutcome(engine: Engine, e: Expr, ty: Type, env: Env)
    requires !Equivalent(e.ty, ty) && !IsCast(e)
    ensures Eval(engine, CoerceOne(e, ty), env) == Eval(engine, CastTo(ty, e), env)
    ensures Comparable(engine, CoerceOne(e, ty), env) ==> Comparable(engine, CastTo(ty, e), env)
  {
    if IsSubquery(e) {
      var cast := CastTo(ty, e);
      CastOutcome(engine, e, ty, env);
      assert TryFree(CoerceOne(e, ty)) ==> TryFree(cast);
      var each := seq(|cast.inputs|, i requires 0 <= i < |cast.inputs| => Comparable(engine, cast.inputs[i], env));
      if Comparable(engine, e, env) { assert All(each); }
    }
  }

  lemma {:induction false} CoerceOneAgrees(s: Sides, t: Expr, u: Expr, ty: Type, keep: bool)
    requires OperandAgrees(s, t, u, keep) && (keep ==> OperandKeeps(s, t, u, ty))
    ensures Agree(s, CoerceOne(t, ty), CoerceOne(u, ty), keep)
  {
    if !Equivalent(u.ty, ty) {
      if IsCast(u) {
        CastAgrees(s, ty, Cast, Peeled(t), Peeled(u), keep);
      } else {
        CastAgrees(s, ty, Cast, t, u, keep);
        CoercedOutcome(s.engine, u, ty, s.inner);
        if !IsCast(t) { CoercedOutcome(s.engine, t, ty, s.outer); }
      }
    }
  }

  /** An operand that inlining made a cast has the reference's outcome, once coerced, exactly when
      replacing the cast changes nothing. */
  lemma {:induction false} CoercedOperandExact(s: Sides, t: Expr, u: Expr, ty: Type)
    requires Agree(s, t, u, true) && !Equivalent(u.ty, ty) && IsCast(t) && !IsCast(u)
    requires Comparable(s.engine, u, s.inner)
    ensures Eval(s.engine, CoerceOne(t, ty), s.outer) == Eval(s.engine, CoerceOne(u, ty), s.inner)
       <==> PeelKeeps(s.engine, t, ty, s.outer)
  {
    CastOutcome(s.engine, t, ty, s.outer);
    CastOutcome(s.engine, u, ty, s.inner);
    CoercedOutcome(s.engine, u, ty, s.inner);
  }

  lemma {:induction false} ListInAgrees(s: Sides, cat: Catalog, ts: seq<Expr>, us: seq<Expr>, keeps: seq<bool>, keep: bool)
    requires us != [] && |ts| == |us| == |keeps| && (keep ==> All(keeps) && OperandsKeep(s, cat, ts, us))
    requires forall i :: 0 <= i < |us| ==> OperandAgrees(s, ts[i], us[i], keeps[i])
    requires ResolveIn(Some(cat.superType), ts).Ok? && ResolveIn(Some(cat.superType), us).Ok?
    ensures Agree(s, ResolveIn(Some(cat.superType), ts).value, ResolveIn(Some(cat.superType), us).value, keep)
  {
    assert Types(ts[1..]) == Types(us[1..]);
    var common := CommonType(cat.superType, us[0].ty, Types(us[1..])).value;
    var some := seq(|us|, i => keep);
    forall i | 0 <= i < |us| ensures Agree(s, CoerceAll(ts, common)[i], CoerceAll(us, common)[i], KeepAt(some, i)) {
      CoerceOneAgrees(s, ts[i], us[i], common, keep);
    }
    SpecialAgrees(s, Boolean, In, CoerceAll(ts, common), CoerceAll(us, common), some, keep);
  }

  lemma {:induction false} InFormsAgree(
      s: Sides, cat: Catalog, constant: bool, ts: seq<Expr>, us: seq<Expr>, keeps: seq<bool>, keep: bool)
    requires us != [] && |ts| == |us| == |keeps| && (keep ==> All(keeps) && OperandsKeep(s, cat, ts, us))
    requires forall i :: 0 <= i < |us| ==> OperandAgrees(s, ts[i], us[i], keeps[i])
    requires constant ==> ConstantTail(ts) && ConstantTail(us)
    requires ResolveInForms(cat, constant, ts).Ok? && ResolveInForms(cat, constant, us).Ok?
    ensures Agree(s, ResolveInForms(cat, constant, ts).value, ResolveInForms(cat, constant, us).value, keep)
  {
    if constant {
      assert ts[1..] == us[1..];
      ConstantInAgrees(s, cat, ts, us, keeps, keep);
    } else {
      ListInAgrees(s, cat, ts, us, keeps, keep);
    }
  }

  lemma {:induction false} ConstantInAgrees(
      s: Sides, cat: Catalog, ts: seq<Expr>, us: seq<Expr>, keeps: seq<bool>, keep: bool)
    requires us != [] && |ts| == |us| == |keeps| && (keep ==> All(keeps) && OperandsKeep(s, cat, ts, us))
    requires forall i :: 0 <= i < |us| ==> OperandAgrees(s, ts[i], us[i], keeps[i])
    requires ConstantTail(us) && ts[1..] == us[1..]
    requires ResolveConstantIn(Some(cat.superType), ts[0], ts[1..]).Ok?
    requires ResolveConstantIn(Some(cat.superType), us[0], us[1..]).Ok?
    ensures Agree(s, ResolveConstantIn(Some(cat.superType), ts[0], ts[1..]).value,
                  ResolveConstantIn(Some(cat.superType), us[0], us[1..]).value, keep)
  {
    var common := CommonType(cat.superType, us[0].ty, Types(us[1..]));
    if common.Some? && !common.value.Unknown? && LiteralArray(us[1..], common.value).Some? {
      var stored := Constant(Array(common.value), ArrayV(LiteralArray(us[1..], common.value).value));
      assert keep ==> OperandKeeps(s, ts[0], us[0], common.value);
      InArrayAgrees(s, ts[0], us[0], common.value, stored, keep);
    } else {
      assert [ts[0]] + ts[1..] == ts && [us[0]] + us[1..] == us;
      ListInAgrees(s, cat, ts, us, keeps, keep);
    }
  }

  lemma {:induction false} InArrayAgrees(s: Sides, t: Expr, u: Expr, ty: Type, stored: Expr, keep: bool)
    requires OperandAgrees(s, t, u, keep) && (keep ==> OperandKeeps(s, t, u, ty)) && stored.Constant?
    ensures Agree(s, Special(Boolean, InArray, [CoerceOne(t, ty), stored]),
                  Special(Boolean, InArray, [CoerceOne(u, ty), stored]), keep)
  {
    CoerceOneAgrees(s, t, u, ty, keep);
    SpecialAgrees(s, Boolean, InArray, [CoerceOne(t, ty), stored], [CoerceOne(u, ty), stored], [keep, keep], keep);
  }

  // ----- The theorem.

  /** IN keeps its meaning wherever it is reached, in the bodies of called functions too: p and q are
      what names stand for in the inlined expression and in the reference. */
  ghost predicate KeepsIn(s: Sides, cat: Catalog, e: UExpr, p: Scope, q: Scope, guard: set<string>)
    decreases cat.sqlNames - guard, e, 1, 0
  {
    match e
    case Field(input, _) => KeepsIn(s, cat, input, p, q, guard)
    case UCast(_, _, input) => KeepsIn(s, cat, input, p, q, guard)
    case URow(_, inputs) => All(KeepsEach(s, cat, inputs, p, q, guard))
    case UCall(name, inputs) =>
      var ts, us := ResolveFrom(cat, inputs, 0, p, true, guard), ResolveFrom(cat, inputs, 0, q, false, guard);
      ts.Ok? && us.Ok? ==>
        CallKeeps(s, cat, e, name, ts.value, us.value, KeepsEach(s, cat, inputs, p, q, guard), guard)
    case _ => true
  }

  ghost function KeepsEach(s: Sides, cat: Catalog, es: seq<UExpr>, p: Scope, q: Scope, guard: set<string>): (r: seq<bool>)
    ensures |r| == |es| && forall i :: 0 <= i < |es| ==> r[i] == KeepsIn(s, cat, es[i], p, q, guard)
    decreases cat.sqlNames - guard, es, 0, 0
  {
    seq(|es|, i requires 0 <= i < |es| => KeepsIn(s, cat, es[i], p, q, guard))
  }

  ghost predicate CallKeeps(
      s: Sides, cat: Catalog, e: UExpr, name: string, ts: seq<Expr>, us: seq<Expr>, keeps: seq<bool>, guard: set<string>)
    decreases cat.sqlNames - guard, e, 0, 1
  {
    if name == "in" then All(keeps) && OperandsKeep(s, cat, ts, us)
    else
      match ResolveForm(cat, name, us)
      case Ok(Some(r)) => SpecialKeeps(s, r, keeps)
      case _ => All(keeps) && BodyKeeps(s, cat, e, name, ts, guard)
  }

  /** The body of a called SQL function, unless the null guard answers before it. */
  ghost predicate BodyKeeps(s: Sides, cat: Catalog, e: UExpr, name: string, ts: seq<Expr>, guard: set<string>)
    decreases cat.sqlNames - guard, e, 0, 0
  {
    var f := cat.sqlFunction(name, Types(ts));
    f.Some? && Inlinable(cat, name, f.value, ts, guard) ==>
      assert cat.sqlNames - (guard + {name}) < cat.sqlNames - guard by { assert name in cat.sqlNames - guard; }
      var args := CastArguments(ts, f.value.argumentTypes);
      var os := EvalAll(s.engine, args, s.outer);
      GuardAnswers(f.value.nullOnNull, os) ||
      KeepsIn(Sides(s.engine, s.outer, Bind(f.value.argumentNames, os)), cat, f.value.body,
        BodyScope(f.value, args, true), BodyScope(f.value, args, false), guard + {name})
  }

  ghost predicate ScopesAgree(s: Sides, p: Scope, q: Scope) {
    && p.columns.Keys == q.columns.Keys
    && (forall x :: x in p.columns ==> OperandAgrees(s, p.columns[x], q.columns[x], true))
    && p.qualified.Keys == q.qualified.Keys
    && (forall x :: x in p.qualified ==> OperandAgrees(s, p.qualified[x], q.qualified[x], true))
  }

  lemma {:induction false} LessToKeep(s: Sides, t: Expr, u: Expr, keep: bool)
    requires OperandAgrees(s, t, u, true)
    ensures OperandAgrees(s, t, u, keep)
  {
  }

  /** The inlined form over its scope and row agrees with the reference over another, as a body
      over its arguments does with the body over its parameters. */
  lemma {:induction false} InlinedAgrees(s: Sides, cat: Catalog, e: UExpr, p: Scope, q: Scope, guard: set<string>)
    requires ScopesAgree(s, p, q)
    requires Resolve(cat, e, p, true, guard).Ok? && Resolve(cat, e, q, false, guard).Ok?
    ensures OperandAgrees(s, Resolve(cat, e, p, true, guard).value, Resolve(cat, e, q, false, guard).value,
                          KeepsIn(s, cat, e, p, q, guard))
    decreases cat.sqlNames - guard, e, 1, 0
  {
    var keep := KeepsIn(s, cat, e, p, q, guard);
    match e
    case Column(x) => LessToKeep(s, p.columns[x], q.columns[x], keep);
    case Field(_, _) =>
      InlinedFieldAgrees(s, cat, e, p, q, guard);
    case UCast(ty, tryCast, input) =>
      InlinedAgrees(s, cat, input, p, q, guard);
      CastAgrees(s, ty, if tryCast then TryCast else Cast, Resolve(cat, input, p, true, guard).value,
        Resolve(cat, input, q, false, guard).value, keep);
    case URow(_, _) =>
      InlinedRowAgrees(s, cat, e, p, q, guard);
    case UCall(_, _) =>
      InlinedCallAgrees(s, cat, e, p, q, guard);
      ResolvedCallShape(cat, e, q, false, guard);
    case _ =>
  }

  lemma {:induction false} InlinedFieldAgrees(s: Sides, cat: Catalog, e: UExpr, p: Scope, q: Scope, guard: set<string>)
    requires ScopesAgree(s, p, q) && e.Field?
    requires Resolve(cat, e, p, true, guard).Ok? && Resolve(cat, e, q, false, guard).Ok?
    ensures OperandAgrees(s, Resolve(cat, e, p, true, guard).value, Resolve(cat, e, q, false, guard).value,
                          KeepsIn(s, cat, e, p, q, guard))
    decreases cat.sqlNames - guard, e, 0, 2
  {
    var keep := KeepsIn(s, cat, e, p, q, guard);
    if e.input.Column? && (e.input.name, e.field) in q.qualified {
      LessToKeep(s, p.qualified[(e.input.name, e.field)], q.qualified[(e.input.name, e.field)], keep);
    } else {
      InlinedAgrees(s, cat, e.input, p, q, guard);
      FieldAgrees(s, Resolve(cat, e.input, p, true, guard).value, Resolve(cat, e.input, q, false, guard).value, e.field, keep);
    }
  }

  lemma {:induction false} InlinedRowAgrees(s: Sides, cat: Catalog, e: UExpr, p: Scope, q: Scope, guard: set<string>)
    requires ScopesAgree(s, p, q) && e.URow?
    requires Resolve(cat, e, p, true, guard).Ok? && Resolve(cat, e, q, false, guard).Ok?
    ensures OperandAgrees(s, Resolve(cat, e, p, true, guard).value, Resolve(cat, e, q, false, guard).value,
                          KeepsIn(s, cat, e, p, q, guard))
    decreases cat.sqlNames - guard, e, 0, 2
  {
    var ts, us := ResolveFrom(cat, e.inputs, 0, p, true, guard).value, ResolveFrom(cat, e.inputs, 0, q, false, guard).value;
    var keeps := KeepsEach(s, cat, e.inputs, p, q, guard);
    InputsAgree(s, cat, e.inputs, p, q, guard);
    AgreeingTypes(s, ts, us, keeps);
    SpecialAgrees(s, Row(e.names, Types(us)), RowConstructor, ts, us, keeps, All(keeps));
  }

  lemma {:induction false} InputsAgree(s: Sides, cat: Catalog, es: seq<UExpr>, p: Scope, q: Scope, guard: set<string>)
    requires ScopesAgree(s, p, q)
    requires ResolveFrom(cat, es, 0, p, true, guard).Ok? && ResolveFrom(cat, es, 0, q, false, guard).Ok?
    ensures var ts, us := ResolveFrom(cat, es, 0, p, true, guard).value, ResolveFrom(cat, es, 0, q, false, guard).value;
            && AllAgree(s, ts, us, KeepsEach(s, cat, es, p, q, guard))
            && forall i :: 0 <= i < |es| ==> OperandAgrees(s, ts[i], us[i], KeepsEach(s, cat, es, p, q, guard)[i])
    decreases cat.sqlNames - guard, es, 0, 1
  {
    var ts, us := ResolveFrom(cat, es, 0, p, true, guard).value, ResolveFrom(cat, es, 0, q, false, guard).value;
    var keeps := KeepsEach(s, cat, es, p, q, guard);
    forall i | 0 <= i < |es| ensures OperandAgrees(s, ts[i], us[i], keeps[i]) {
      assert Resolve(cat, es[i], p, true, guard) == Ok(ts[i]) by { InputResolved(cat, es, 0, p, true, guard, i); }
      assert Resolve(cat, es[i], q, false, guard) == Ok(us[i]) by { InputResolved(cat, es, 0, q, false, guard, i); }
      InlinedAgrees(s, cat, es[i], p, q, guard);
    }
  }

  lemma {:induction false} InlinedCallAgrees(s: Sides, cat: Catalog, e: UExpr, p: Scope, q: Scope, guard: set<string>)
    requires ScopesAgree(s, p, q) && e.UCall?
    requires Resolve(cat, e, p, true, guard).Ok? && Resolve(cat, e, q, false, guard).Ok?
    ensures Agree(s, Resolve(cat, e, p, true, guard).value, Resolve(cat, e, q, false, guard).value,
                  KeepsIn(s, cat, e, p, q, guard))
    decreases cat.sqlNames - guard, e, 0, 2
  {
    if e.name == "in" {
      InUnfolds(cat, e, q, false, guard);
      InUnfolds(cat, e, p, true, guard);
    }
    var ts, us := ResolveFrom(cat, e.inputs, 0, p, true, guard).value, ResolveFrom(cat, e.inputs, 0, q, false, guard).value;
    var keeps, keep := KeepsEach(s, cat, e.inputs, p, q, guard), KeepsIn(s, cat, e, p, q, guard);
    assert keep == CallKeeps(s, cat, e, e.name, ts, us, keeps, guard);
    InputsAgree(s, cat, e.inputs, p, q, guard);
    if e.name == "in" {
      InAgrees(s, cat, e, p, q, guard, ts, us, keeps, keep);
    } else {
      ResolvedCallAgrees(s, cat, e, e.name, ts, us, keeps, keep, guard);
    }
  }

  lemma {:induction false} InAgrees(
      s: Sides, cat: Catalog, e: UExpr, p: Scope, q: Scope, guard: set<string>, ts: seq<Expr>, us: seq<Expr>,
      keeps: seq<bool>, keep: bool)
    requires e.UCall? && e.name == "in" && Resolve(cat, e, p, true, guard).Ok? && Resolve(cat, e, q, false, guard).Ok?
    requires ResolveFrom(cat, e.inputs, 0, p, true, guard) == Ok(ts) && ResolveFrom(cat, e.inputs, 0, q, false, guard) == Ok(us)
    requires |keeps| == |us| && (keep ==> All(keeps) && OperandsKeep(s, cat, ts, us))
    requires forall i :: 0 <= i < |us| ==> OperandAgrees(s, ts[i], us[i], keeps[i])
    ensures Agree(s, Resolve(cat, e, p, true, guard).value, Resolve(cat, e, q, false, guard).value, keep)
  {
    InUnfolds(cat, e, q, false, guard);
    InUnfolds(cat, e, p, true, guard);
    InFormsAgree(s, cat, IsConstantIn(e.inputs), ts, us, keeps, keep);
  }

  lemma {:induction false} ResolvedCallAgrees(
      s: Sides, cat: Catalog, e: UExpr, name: string, ts: seq<Expr>, us: seq<Expr>, keeps: seq<bool>, keep: bool,
      guard: set<string>)
    requires AllAgree(s, ts, us, keeps) && name != "in" && (keep ==> CallKeeps(s, cat, e, name, ts, us, keeps, guard))
    requires ResolveCall(cat, e, name, ts, true, guard).Ok? && ResolveCall(cat, e, name, us, false, guard).Ok?
    ensures Agree(s, ResolveCall(cat, e, name, ts, true, guard).value, ResolveCall(cat, e, name, us, false, guard).value, keep)
    decreases cat.sqlNames - guard, e, 0, 1
  {
    FormAgrees(s, cat, name, ts, us, keeps, keep);
    AgreeingTypes(s, ts, us, keeps);
    if ResolveForm(cat, name, us).value.None? {
      var found := cat.sqlFunction(name, Types(us));
      if found.None? {
        var signature := cat.scalar(name, Types(us)).value;
        CoercionsAgree(s, ts, us, signature.coercions, keeps);
        CallAgrees(s, signature.returnType, name,
          ApplyCoercions(ts, signature.coercions).value, ApplyCoercions(us, signature.coercions).value, keeps, keep);
      } else {
        InlinedSqlAgrees(s, cat, e, name, found.value, ts, us, keeps, keep, guard);
      }
    }
  }

  lemma {:induction false} InlinedSqlAgrees(
      s: Sides, cat: Catalog, e: UExpr, name: string, f: SqlFunction, ts: seq<Expr>, us: seq<Expr>,
      keeps: seq<bool>, keep: bool, guard: set<string>)
    requires AllAgree(s, ts, us, keeps) && ResolveForm(cat, name, ts) == Ok(None)
    requires cat.sqlFunction(name, Types(us)) == Some(f) && Types(ts) == Types(us)
    requires keep ==> All(keeps) && BodyKeeps(s, cat, e, name, ts, guard)
    requires ResolveSqlFunction(cat, e, name, ts, true, guard).Ok?
    requires ResolveSqlFunction(cat, e, name, us, false, guard).Ok?
    ensures ResolveSqlFunction(cat, e, name, ts, true, guard).value.Some?
    ensures ResolveSqlFunction(cat, e, name, us, false, guard).value.Some?
    ensures Agree(s, ResolveSqlFunction(cat, e, name, ts, true, guard).value.value,
                  ResolveSqlFunction(cat, e, name, us, false, guard).value.value, keep)
    decreases cat.sqlNames - guard, e, 0, 0
  {
    SqlUnfolds(cat, e, name, f, us, false, guard);
    SqlUnfolds(cat, e, name, f, ts, true, guard);
    assert cat.sqlNames - (guard + {name}) < cat.sqlNames - guard by { assert name in cat.sqlNames - guard; }
    ArgumentsAgree(s, ts, us, f.argumentTypes, keeps);
    InlinedBodyAgrees(s, cat, f, CastArguments(ts, f.argumentTypes), CastArguments(us, f.argumentTypes),
      keeps, keep, guard + {name});
  }

  /** The environment of a body: the outcomes of the arguments it is inlined over. */
  ghost function BodySides(s: Sides, f: SqlFunction, args: seq<Expr>): Sides {
    Sides(s.engine, s.outer, Bind(f.argumentNames, EvalAll(s.engine, args, s.outer)))
  }

  lemma {:induction false} BodyScopesAgree(s: Sides, f: SqlFunction, args: seq<Expr>)
    requires |f.argumentNames| == |args| && Distinct(f.argumentNames)
    ensures ScopesAgree(BodySides(s, f, args), BodyScope(f, args, true), BodyScope(f, args, false))
  {
    var p, q := BodyScope(f, args, true), BodyScope(f, args, false);
    forall x | x in p.columns ensures OperandAgrees(BodySides(s, f, args), p.columns[x], q.columns[x], true) {
      ParameterAgrees(s, f, args, x);
    }
  }

  lemma {:induction false} ParameterAgrees(s: Sides, f: SqlFunction, args: seq<Expr>, x: string)
    requires |f.argumentNames| == |args| && Distinct(f.argumentNames) && x in BodyScope(f, args, true).columns
    ensures OperandAgrees(BodySides(s, f, args), BodyScope(f, args, true).columns[x], BodyScope(f, args, false).columns[x], true)
  {
    var names, os := f.argumentNames, EvalAll(s.engine, args, s.outer);
    var i :| 0 <= i < |names| && names[i] == x;
    assert BodyScope(f, args, true).columns[x] == args[i] by { BindAt(names, args, i); }
    assert BodyScope(f, args, false).columns[x] == InputRef(args[i].ty, x) by { BindAt(names, Params(names, args), i); }
    assert Lookup(Bind(names, os), x) == os[i] by { BindAt(names, os, i); }
    BoundAgrees(BodySides(s, f, args), args[i], x);
  }

  lemma {:induction false} BoundAgrees(s: Sides, t: Expr, x: string)
    requires Lookup(s.inner, x) == Eval(s.engine, t, s.outer)
    ensures OperandAgrees(s, t, InputRef(t.ty, x), true)
  {
  }

  lemma {:induction false} InlinedBodyAgrees(
      s: Sides, cat: Catalog, f: SqlFunction, args: seq<Expr>, reference: seq<Expr>, keeps: seq<bool>, keep: bool,
      guard: set<string>)
    requires AllAgree(s, args, reference, keeps) && |f.argumentNames| == |args| && Distinct(f.argumentNames)
    requires keep ==> All(keeps)
    requires keep ==> GuardAnswers(f.nullOnNull, EvalAll(s.engine, args, s.outer)) ||
                      KeepsIn(BodySides(s, f, args), cat, f.body, BodyScope(f, args, true), BodyScope(f, args, false), guard)
    requires ResolveBody(cat, f, args, true, guard).Ok? && ResolveBody(cat, f, reference, false, guard).Ok?
    ensures Agree(s, ResolveBody(cat, f, args, true, guard).value.value,
                  ResolveBody(cat, f, reference, false, guard).value.value, keep)
    decreases cat.sqlNames - guard, f.body, 3, 0
  {
    var p, q := BodyScope(f, args, true), BodyScope(f, args, false);
    assert Params(f.argumentNames, args) == Params(f.argumentNames, reference);
    assert BodyScope(f, reference, false) == q;
    BodyUnfolds(cat, f, args, true, guard);
    BodyUnfolds(cat, f, reference, false, guard);
    BodyScopesAgree(s, f, args);
    InlinedAgrees(BodySides(s, f, args), cat, f.body, p, q, guard);
    var t, u := Resolve(cat, f.body, p, true, guard).value, Resolve(cat, f.body, q, false, guard).value;
    ParamsContained(cat, f, args, u, guard);
    FinishAgrees(s, cat, f, args, reference, t, u, keeps,
      KeepsIn(BodySides(s, f, args), cat, f.body, p, q, guard), keep);
  }

  /** Casting and guarding bodies that agree. */
  lemma {:induction false} FinishAgrees(
      s: Sides, cat: Catalog, f: SqlFunction, args: seq<Expr>, reference: seq<Expr>, t: Expr, u: Expr,
      keeps: seq<bool>, bodyKeeps: bool, keep: bool)
    requires AllAgree(s, args, reference, keeps) && |f.argumentNames| == |args| && Distinct(f.argumentNames)
    requires Agree(BodySides(s, f, args), t, u, bodyKeeps)
    requires keep ==> All(keeps) && (bodyKeeps || GuardAnswers(f.nullOnNull, EvalAll(s.engine, args, s.outer)))
    requires FinishBody(cat, f, args, t, true).Ok? && FinishBody(cat, f, reference, u, false).Ok?
    requires forall i :: 0 <= i < |args| ==>
              Contains(CastResult(cat, u, f.returnType).value, InputRef(args[i].ty, f.argumentNames[i]))
    ensures Agree(s, FinishBody(cat, f, args, t, true).value, FinishBody(cat, f, reference, u, false).value, keep)
  {
    CastAgrees(BodySides(s, f, args), f.returnType, Cast, t, u, bodyKeeps);
    SqlCallAgrees(s, f.argumentNames, args, reference, CastResult(cat, t, f.returnType).value,
      CastResult(cat, u, f.returnType).value, f.nullOnNull, keeps, bodyKeeps, keep);
  }

  lemma {:induction false} SameScope(engine: Engine, scope: Scope, env: Env)
    ensures ScopesAgree(Sides(engine, env, env), scope, scope)
  {
  }

  /** Inlining preserves meaning. Whatever resolves both ways has the same type, and over every
      row where the two are comparable and IN keeps its meaning, the same outcome, errors
      included: above all wherever the arguments of the calls that are reached have values.
      Nested calls are inlined to any depth. */
  lemma {:induction false} InliningPreservesMeaning(
      engine: Engine, cat: Catalog, e: UExpr, scope: Scope, guard: set<string>, env: Env)
    requires Resolve(cat, e, scope, true, guard).Ok? && Resolve(cat, e, scope, false, guard).Ok?
    ensures var t, u := Resolve(cat, e, scope, true, guard).value, Resolve(cat, e, scope, false, guard).value;
            && t.ty == u.ty
            && (Comparable(engine, u, env) && KeepsIn(Sides(engine, env, env), cat, e, scope, scope, guard) ==>
                  Eval(engine, t, env) == Eval(engine, u, env))
  {
    SameScope(engine, scope, env);
    InlinedAgrees(Sides(engine, env, env), cat, e, scope, scope, guard);
  }

  /** So where every argument of every call that is reached has a value, the inlined form and the
      bodies over those values have one outcome, whatever the bodies do. */
  lemma {:induction false} InliningOverValues(
      engine: Engine, cat: Catalog, e: UExpr, scope: Scope, guard: set<string>, env: Env)
    requires Resolve(cat, e, scope, true, guard).Ok? && Resolve(cat, e, scope, false, guard).Ok?
    requires KeepsIn(Sides(engine, env, env), cat, e, scope, scope, guard)
    requires Answered(engine, Resolve(cat, e, scope, false, guard).value, env)
    ensures Eval(engine, Resolve(cat, e, scope, true, guard).value, env)
         == Eval(engine, Resolve(cat, e, scope, false, guard).value, env)
  {
    InliningPreservesMeaning(engine, cat, e, scope, guard, env);
    AnsweredComparable(engine, Resolve(cat, e, scope, false, guard).value, env);
  }

  // ----- When IN keeps its meaning.

  /** A cast between integers that can be replaced: it does not narrow, or its target is replaced by
      no wider one. */
  predicate PeelFits(t: Expr, ty: Type) {
    && IsCast(t) && IntType(Peeled(t).ty) && IntType(t.ty) && IntType(ty)
    && (IntegerRank(Peeled(t).ty).value <= IntegerRank(t.ty).value || IntegerRank(ty).value <= IntegerRank(t.ty).value)
  }

  lemma {:induction false} FittingPeelKeeps(engine: Engine, t: Expr, ty: Type, env: Env)
    requires PeelFits(t, ty) && TypedExpr(engine, Peeled(t), env)
    ensures PeelKeeps(engine, t, ty, env)
  {
    var x := Peeled(t);
    var o := Eval(engine, x, env);
    assert t == CastTo(t.ty, x);
    CastOutcome(engine, x, ty, env);
    CastOutcome(engine, x, t.ty, env);
    CastOutcome(engine, t, ty, env);
    if o.Val? { FittingCasts(engine, o.value, x.ty, t.ty, ty); }
  }

  lemma {:induction false} FittingCasts(engine: Engine, v: Value, s: Type, a: Type, t: Type)
    requires IntType(s) && IntType(a) && IntType(t) && HasType(v, s)
    requires IntegerRank(s).value <= IntegerRank(a).value || IntegerRank(t).value <= IntegerRank(a).value
    ensures CastValue(engine, v, s, t) ==
            var o := CastValue(engine, v, s, a); if o.Err? then Err else CastValue(engine, o.value, a, t)
  {
    if v.IntV? {
      WiderFits(s, a, t, v.n);
      IntegerCast(engine, s, t, v.n);
      IntegerCast(engine, s, a, v.n);
      IntegerCast(engine, a, t, v.n);
    }
  }

  lemma {:induction false} IntegerCast(engine: Engine, from: Type, to: Type, n: int)
    requires IntType(from) && IntType(to)
    ensures CastValue(engine, IntV(KindOf(from), n), from, to) == IntCast(from, to, n)
  {
  }

  predicate OperandFits(t: Expr, u: Expr, ty: Type) {
    Equivalent(u.ty, ty) || !IsCast(t) || IsCast(u) || PeelFits(t, ty)
  }

  predicate OperandsFit(cat: Catalog, ts: seq<Expr>, us: seq<Expr>) {
    us != [] && |ts| == |us| ==>
      var common := CommonType(cat.superType, us[0].ty, Types(us[1..]));
      common.Some? ==> forall i :: 0 <= i < |us| ==> OperandFits(ts[i], us[i], common.value)
  }

  /** At every IN, in called bodies too, each coerced operand that inlining makes a cast fits. No row
      and no engine is asked. */
  predicate FitsIn(cat: Catalog, e: UExpr, p: Scope, q: Scope, guard: set<string>)
    decreases cat.sqlNames - guard, e, 1, 0
  {
    match e
    case Field(input, _) => FitsIn(cat, input, p, q, guard)
    case UCast(_, _, input) => FitsIn(cat, input, p, q, guard)
    case URow(_, inputs) => forall i :: 0 <= i < |inputs| ==> FitsIn(cat, inputs[i], p, q, guard)
    case UCall(name, inputs) =>
      && (forall i :: 0 <= i < |inputs| ==> FitsIn(cat, inputs[i], p, q, guard))
      && var ts, us := ResolveFrom(cat, inputs, 0, p, true, guard), ResolveFrom(cat, inputs, 0, q, false, guard);
         ts.Ok? && us.Ok? ==>
           if name == "in" then OperandsFit(cat, ts.value, us.value) else BodyFits(cat, e, name, ts.value, guard)
    case _ => true
  }

  predicate BodyFits(cat: Catalog, e: UExpr, name: string, ts: seq<Expr>, guard: set<string>)
    decreases cat.sqlNames - guard, e, 0, 0
  {
    var f := cat.sqlFunction(name, Types(ts));
    f.Some? && Inlinable(cat, name, f.value, ts, guard) ==>
      assert cat.sqlNames - (guard + {name}) < cat.sqlNames - guard by { assert name in cat.sqlNames - guard; }
      var args := CastArguments(ts, f.value.argumentTypes);
      FitsIn(cat, f.value.body, BodyScope(f.value, args, true), BodyScope(f.value, args, false), guard + {name})
  }

  /** Then IN keeps its meaning over every typed row. */
  lemma {:induction false} FittingKeeps(s: Sides, cat: Catalog, e: UExpr, p: Scope, q: Scope, guard: set<string>)
    requires FitsIn(cat, e, p, q, guard)
    requires Sound(s.engine, cat) && TypedScope(s.engine, p, s.outer) && TypedSubqueries(s.engine, e)
    ensures KeepsIn(s, cat, e, p, q, guard)
    decreases cat.sqlNames - guard, e, 1, 0
  {
    match e
    case Field(input, _) => FittingKeeps(s, cat, input, p, q, guard);
    case UCast(_, _, input) => FittingKeeps(s, cat, input, p, q, guard);
    case URow(_, inputs) => FittingEachKeeps(s, cat, inputs, p, q, guard);
    case UCall(name, inputs) =>
      FittingEachKeeps(s, cat, inputs, p, q, guard);
      var ts, us := ResolveFrom(cat, inputs, 0, p, true, guard), ResolveFrom(cat, inputs, 0, q, false, guard);
      if ts.Ok? && us.Ok? {
        InputsTyped(s.engine, cat, inputs, p, guard, s.outer);
        FittingCallKeeps(s, cat, e, name, ts.value, us.value, KeepsEach(s, cat, inputs, p, q, guard), guard);
      }
    case _ =>
  }

  lemma {:induction false} FittingEachKeeps(s: Sides, cat: Catalog, es: seq<UExpr>, p: Scope, q: Scope, guard: set<string>)
    requires forall i :: 0 <= i < |es| ==> FitsIn(cat, es[i], p, q, guard) && TypedSubqueries(s.engine, es[i])
    requires Sound(s.engine, cat) && TypedScope(s.engine, p, s.outer)
    ensures All(KeepsEach(s, cat, es, p, q, guard))
    decreases cat.sqlNames - guard, es, 0, 0
  {
    forall i | 0 <= i < |es| ensures KeepsIn(s, cat, es[i], p, q, guard) { FittingKeeps(s, cat, es[i], p, q, guard); }
  }

  lemma {:induction false} FittingCallKeeps(
      s: Sides, cat: Catalog, e: UExpr, name: string, ts: seq<Expr>, us: seq<Expr>, keeps: seq<bool>, guard: set<string>)
    requires All(keeps) && Sound(s.engine, cat) && forall i :: 0 <= i < |ts| ==> TypedOperand(s.engine, ts[i], s.outer)
    requires if name == "in" then OperandsFit(cat, ts, us) else BodyFits(cat, e, name, ts, guard)
    ensures CallKeeps(s, cat, e, name, ts, us, keeps, guard)
    decreases cat.sqlNames - guard, e, 0, 1
  {
    if name == "in" {
      FittingOperandsKeep(s, cat, ts, us);
    } else if ResolveForm(cat, name, us).Ok? && ResolveForm(cat, name, us).value.Some? {
      FormIsNoCast(cat, name, us);
    } else {
      FittingBodyKeeps(s, cat, e, name, ts, guard);
    }
  }

  lemma {:induction false} FittingOperandsKeep(s: Sides, cat: Catalog, ts: seq<Expr>, us: seq<Expr>)
    requires OperandsFit(cat, ts, us) && forall i :: 0 <= i < |ts| ==> TypedOperand(s.engine, ts[i], s.outer)
    ensures OperandsKeep(s, cat, ts, us)
  {
    if us != [] && |ts| == |us| {
      var common := CommonType(cat.superType, us[0].ty, Types(us[1..]));
      forall i | 0 <= i < |us| && common.Some? ensures OperandKeeps(s, ts[i], us[i], common.value) {
        if PeelFits(ts[i], common.value) { FittingPeelKeeps(s.engine, ts[i], common.value, s.outer); }
      }
    }
  }

  lemma {:induction false} FittingBodyKeeps(s: Sides, cat: Catalog, e: UExpr, name: string, ts: seq<Expr>, guard: set<string>)
    requires Sound(s.engine, cat) && forall i :: 0 <= i < |ts| ==> TypedOperand(s.engine, ts[i], s.outer)
    requires BodyFits(cat, e, name, ts, guard)
    ensures BodyKeeps(s, cat, e, name, ts, guard)
    decreases cat.sqlNames - guard, e, 0, 0
  {
    var f := cat.sqlFunction(name, Types(ts));
    if f.Some? && Inlinable(cat, name, f.value, ts, guard) {
      assert cat.sqlNames - (guard + {name}) < cat.sqlNames - guard by { assert name in cat.sqlNames - guard; }
      var args := CastArguments(ts, f.value.argumentTypes);
      ArgumentsTyped(s.engine, cat, f.value, ts, s.outer);
      FittingKeeps(BodySides(s, f.value, args), cat, f.value.body, BodyScope(f.value, args, true),
        BodyScope(f.value, args, false), guard + {name});
    }
  }

  /** So over a typed row, with integer ranks as PeelingExact has them at every IN, nothing is left
      to ask of the row but that the arguments of the calls that are reached have values. */
  lemma {:induction false} InliningByRanks(
      engine: Engine, cat: Catalog, e: UExpr, scope: Scope, guard: set<string>, env: Env)
    requires Resolve(cat, e, scope, true, guard).Ok? && Resolve(cat, e, scope, false, guard).Ok?
    requires FitsIn(cat, e, scope, scope, guard)
    requires Sound(engine, cat) && TypedScope(engine, scope, env) && TypedSubqueries(engine, e)
    requires Answered(engine, Resolve(cat, e, scope, false, guard).value, env)
    ensures Eval(engine, Resolve(cat, e, scope, true, guard).value, env)
         == Eval(engine, Resolve(cat, e, scope, false, guard).value, env)
  {
    FittingKeeps(Sides(engine, env, env), cat, e, scope, scope, guard);
    InliningOverValues(engine, cat, e, scope, guard, env);
  }
}
