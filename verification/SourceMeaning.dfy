/** What an untyped expression means, told without resolving it, and that resolution keeps to it. */
module SourceMeaning {
  import opened Wrappers
  import opened Values
  import opened Exprs
  import opened Resolver
  import opened Inlining
  import opened InPredicate
  import opened InliningMeaning

  /** A type, and an outcome over the row at hand; for a cast what it casts, for a literal its value,
      and whether there is a subquery inside. */
  datatype Meaning = Meaning(
    ty: Type,
    outcome: Outcome,
    under: Option<(Type, Outcome)>,
    literal: Option<Value>,
    subquery: bool)

  /** What names stand for. */
  datatype Cells = Cells(columns: map<string, Meaning>, qualified: map<(string, string), Meaning>)

  /** A call or form over inputs. */
  function Over(ty: Type, outcome: Outcome, inputs: seq<Meaning>): Meaning {
    Meaning(ty, outcome, None, None, AnySubquery(inputs))
  }

  predicate AnySubquery(ms: seq<Meaning>) {
    exists i :: 0 <= i < |ms| && ms[i].subquery
  }

  function LiteralMeaning(ty: Type, v: Value): Meaning {
    Meaning(ty, Val(v), None, Some(v), false)
  }

  function Null(ty: Type): Outcome {
    Val(NullV(KindOf(ty)))
  }

  predicate IsNull(o: Outcome) {
    o.Val? && o.value.NullV?
  }

  // ----- Casts.

  function CastOf(engine: Engine, from: Type, o: Outcome, to: Type): Outcome {
    if o.Err? then Err else CastValue(engine, o.value, from, to)
  }

  /** TRY_CAST: NULL where the cast fails, but not where its input does. */
  function TryCastOf(engine: Engine, from: Type, o: Outcome, to: Type): Outcome {
    if o.Val? && CastOf(engine, from, o, to).Err? then Null(to) else CastOf(engine, from, o, to)
  }

  function CastMeaning(engine: Engine, m: Meaning, ty: Type): Meaning {
    Meaning(ty, CastOf(engine, m.ty, m.outcome, ty), Some((m.ty, m.outcome)), None, m.subquery)
  }

  /** The inputs a signature asks for, cast where it says so. */
  function Coerced(engine: Engine, ms: seq<Meaning>, coercions: seq<Option<Type>>): Option<seq<Meaning>> {
    if coercions == [] then Some(ms)
    else if |coercions| < |ms| then None
    else Some(seq(|ms|, i requires 0 <= i < |ms| =>
      if coercions[i].Some? then CastMeaning(engine, ms[i], coercions[i].value) else ms[i]))
  }

  function TypesOf(ms: seq<Meaning>): (ts: seq<Type>)
    ensures |ts| == |ms| && forall i :: 0 <= i < |ms| ==> ts[i] == ms[i].ty
  {
    seq(|ms|, i requires 0 <= i < |ms| => ms[i].ty)
  }

  function OutcomesOf(ms: seq<Meaning>): (os: seq<Outcome>)
    ensures |os| == |ms| && forall i :: 0 <= i < |ms| ==> os[i] == ms[i].outcome
  {
    seq(|ms|, i requires 0 <= i < |ms| => ms[i].outcome)
  }

  // ----- Special forms.

  /** AND of two: false wins over an error, an error over NULL. */
  function Meet(a: Outcome, b: Outcome): Outcome {
    if a == Val(BoolV(false)) || b == Val(BoolV(false)) then Val(BoolV(false))
    else if a.Err? || b.Err? then Err
    else if a.value.NullV? || b.value.NullV? then Val(NullV(KBoolean))
    else Val(BoolV(true))
  }

  function Join(a: Outcome, b: Outcome): Outcome {
    if a == Val(BoolV(true)) || b == Val(BoolV(true)) then Val(BoolV(true))
    else if a.Err? || b.Err? then Err
    else if a.value.NullV? || b.value.NullV? then Val(NullV(KBoolean))
    else Val(BoolV(false))
  }

  function Conjunction(os: seq<Outcome>): Outcome {
    if os == [] then Val(BoolV(true)) else Meet(os[0], Conjunction(os[1..]))
  }

  function Disjunction(os: seq<Outcome>): Outcome {
    if os == [] then Val(BoolV(false)) else Join(os[0], Disjunction(os[1..]))
  }

  predicate Truths(os: seq<Outcome>) {
    forall i :: 0 <= i < |os| ==> os[i].Err? || IsNull(os[i]) || os[i].value.BoolV?
  }

  /** A conjunction is true exactly when all inputs are, and false exactly when one is. */
  lemma {:induction false} ConjunctionTruth(os: seq<Outcome>)
    requires Truths(os)
    ensures Conjunction(os) == Val(BoolV(true)) <==> forall i :: 0 <= i < |os| ==> os[i] == Val(BoolV(true))
    ensures Conjunction(os) == Val(BoolV(false)) <==> Val(BoolV(false)) in os
    ensures Conjunction(os) == Err <==> Val(BoolV(false)) !in os && Err in os
  {
    if os != [] {
      ConjunctionTruth(os[1..]);
      assert os == [os[0]] + os[1..];
      assert Conjunction(os).Err? || Conjunction(os).value.BoolV? || Conjunction(os).value.NullV?;
    }
  }

  lemma {:induction false} DisjunctionTruth(os: seq<Outcome>)
    requires Truths(os)
    ensures Disjunction(os) == Val(BoolV(false)) <==> forall i :: 0 <= i < |os| ==> os[i] == Val(BoolV(false))
    ensures Disjunction(os) == Val(BoolV(true)) <==> Val(BoolV(true)) in os
    ensures Disjunction(os) == Err <==> Val(BoolV(true)) !in os && Err in os
  {
    if os != [] {
      DisjunctionTruth(os[1..]);
      assert os == [os[0]] + os[1..];
      assert Disjunction(os).Err? || Disjunction(os).value.BoolV? || Disjunction(os).value.NullV?;
    }
  }

  function IfThenElse(os: seq<Outcome>): Outcome
    requires |os| == 3
  {
    if os[0].Err? then Err else if os[0].value == BoolV(true) then os[1] else os[2]
  }

  function FirstKnown(ty: Type, os: seq<Outcome>): Outcome {
    if os == [] then Null(ty) else if IsNull(os[0]) then FirstKnown(ty, os[1..]) else os[0]
  }

  /** The field at a position of a row value. */
  function FieldAt(fields: seq<Type>, row: Outcome, i: nat): Outcome
    requires i < |fields|
  {
    if row.Err? then Err
    else if row.value.NullV? then Null(fields[i])
    else if row.value.RowV? && i < |row.value.fields| then Val(row.value.fields[i]) else Err
  }

  function RowMeaning(names: seq<string>, ms: seq<Meaning>): Meaning {
    Over(Row(names, TypesOf(ms)), match ValuesOf(OutcomesOf(ms)) case None => Err case Some(vs) => Val(RowV(vs)), ms)
  }

  // ----- Fields.

  predicate SameName(a: string, b: string) {
    LowerAll(a) == LowerAll(b)
  }

  /** The first field of the name, ignoring case; else, for fieldN, the N-th if it has no name. */
  ghost predicate FieldPosition(ty: Type, name: string, i: nat) {
    ty.Row? && i < |ty.fields| && i < |ty.names| &&
    if exists j :: 0 <= j < |ty.names| && SameName(ty.names[j], name)
    then ty.names[i] != "" && SameName(ty.names[i], name) && forall j :: 0 <= j < i ==> !SameName(ty.names[j], name)
    else |name| > 5 && SameName(name[..5], "field") && Decimal(name[5..], 0) == Some(i) && ty.names[i] == ""
  }

  /** The number the digits write, after those already read. */
  function Decimal(s: string, read: nat): Option<nat> {
    if s == "" then Some(read)
    else if '0' <= s[0] <= '9' then Decimal(s[1..], 10 * read + (s[0] as int - '0' as int))
    else None
  }

  // ----- IN.

  /** What IN compares: an operand cast to the common type, and for a cast what is under it. */
  function Operand(engine: Engine, m: Meaning, ty: Type): Outcome {
    if Equivalent(m.ty, ty) then m.outcome
    else if m.under.Some? then CastOf(engine, m.under.value.0, m.under.value.1, ty)
    else CastOf(engine, m.ty, m.outcome, ty)
  }

  function Operands(engine: Engine, ms: seq<Meaning>, ty: Type): (os: seq<Outcome>)
    ensures |os| == |ms| && forall i :: 0 <= i < |ms| ==> os[i] == Operand(engine, ms[i], ty)
  {
    seq(|ms|, i requires 0 <= i < |ms| => Operand(engine, ms[i], ty))
  }

  /** One of the items is the value; or that is not known, because of a NULL; or none is. */
  function Membership(x: Value, items: seq<Value>): Value {
    if exists i :: 0 <= i < |items| && Equal3(x, items[i]) == True then BoolV(true)
    else if exists i :: 0 <= i < |items| && Equal3(x, items[i]) == Maybe then NullV(KBoolean)
    else BoolV(false)
  }

  function InMeaning(engine: Engine, superType: (Type, Type) -> Option<Type>, ms: seq<Meaning>): Option<Meaning> {
    if |ms| < 2 then None
    else
      match CommonType(superType, ms[0].ty, TypesOf(ms[1..]))
      case None => None
      case Some(ty) =>
        match ValuesOf(Operands(engine, ms, ty))
        case None => Some(Over(Boolean, Err, ms))
        case Some(vs) => Some(Over(Boolean, Val(Membership(vs[0], vs[1..])), ms))
  }

  // ----- Expressions.

  /** The meaning of an expression, None where it is rejected. A called function's body means what it
      does over its cast arguments, which are evaluated once; its result is cast to the declared
      type. */
  ghost function MeaningOf(engine: Engine, cat: Catalog, e: UExpr, cells: Cells, guard: set<string>): Option<Meaning>
    decreases cat.sqlNames - guard, e, 1, 0
  {
    match e
    case Column(x) => if x in cells.columns then Some(cells.columns[x]) else None
    case Field(input, name) =>
      if input.Column? && (input.name, name) in cells.qualified then Some(cells.qualified[(input.name, name)])
      else
        (match MeaningOf(engine, cat, input, cells, guard)
         case None => None
         case Some(m) =>
           if i: nat :| FieldPosition(m.ty, name, i) then Some(Over(m.ty.fields[i], FieldAt(m.ty.fields, m.outcome, i), [m]))
           else None)
    case Literal(ty, v) => if HasType(v, ty) then Some(LiteralMeaning(ty, v)) else None
    case UCall(name, inputs) =>
      (match MeaningsOf(engine, cat, inputs, 0, cells, guard)
       case None => None
       case Some(ms) => CallMeaning(engine, cat, e, name, ms, guard))
    case UCast(ty, tryCast, input) =>
      (match MeaningOf(engine, cat, input, cells, guard)
       case None => None
       case Some(m) =>
         if tryCast then Some(Over(ty, TryCastOf(engine, m.ty, m.outcome, ty), [m])) else Some(CastMeaning(engine, m, ty)))
    case URow(names, inputs) =>
      (match MeaningsOf(engine, cat, inputs, 0, cells, guard) case None => None case Some(ms) => Some(RowMeaning(names, ms)))
    case USubquery(ty, id) => Some(Meaning(ty, engine.subquery(id), None, None, true))
  }

  ghost function MeaningsOf(
      engine: Engine, cat: Catalog, es: seq<UExpr>, i: nat, cells: Cells, guard: set<string>): (r: Option<seq<Meaning>>)
    requires i <= |es|
    ensures r.Some? ==> |r.value| == |es| - i
    decreases cat.sqlNames - guard, es, 0, |es| - i
  {
    if i == |es| then Some([])
    else
      match (MeaningOf(engine, cat, es[i], cells, guard), MeaningsOf(engine, cat, es, i + 1, cells, guard))
      case (Some(m), Some(ms)) => Some([m] + ms)
      case _ => None
  }

  /** A call by name: the special forms, else a SQL function, else a scalar function. */
  ghost function CallMeaning(
      engine: Engine, cat: Catalog, e: UExpr, name: string, ms: seq<Meaning>, guard: set<string>): Option<Meaning>
    decreases cat.sqlNames - guard, e, 0, 1
  {
    if name == "in" then InMeaning(engine, cat.superType, ms)
    else if name == "and" || name == "or" || name == "coalesce" then FormMeaning(engine, cat, name, ms)
    else if name == "if" then FormMeaning(engine, cat, name, if |ms| == 2 then ms + [NullOf(ms[1].ty)] else ms)
    else if name == "try" then
      if |ms| == 1 then Some(Over(ms[0].ty, if ms[0].outcome.Err? then Null(ms[0].ty) else ms[0].outcome, ms)) else None
    else if name == "row_constructor" then Some(RowMeaning(seq(|ms|, i => ""), ms))
    else if name == "subscript" && ms != [] && ms[0].ty.Row? then SubscriptMeaning(ms)
    else if name == "switch" || name == "exists" || name == "nullif" || name in guard then None
    else if cat.sqlFunction(name, TypesOf(ms)).Some? then SqlMeaning(engine, cat, e, name, ms, guard)
    else
      match cat.scalar(name, TypesOf(ms))
      case None => None
      case Some(signature) =>
        match Coerced(engine, ms, signature.coercions)
        case None => None
        case Some(inputs) => Some(Over(signature.returnType, ApplyScalar(engine, name, OutcomesOf(inputs)), inputs))
  }

  function NullOf(ty: Type): Meaning {
    LiteralMeaning(ty, NullV(KindOf(ty)))
  }

  /** AND, OR, COALESCE and IF take their type from the signature and ask for inputs that fit it. */
  function FormMeaning(engine: Engine, cat: Catalog, name: string, ms: seq<Meaning>): Option<Meaning> {
    match cat.form(name, TypesOf(ms))
    case None => None
    case Some(signature) =>
      match Coerced(engine, ms, signature.coercions)
      case None => None
      case Some(inputs) =>
        var ty, ts, os := signature.returnType, TypesOf(inputs), OutcomesOf(inputs);
        if name == "and" then if Conditions(ts) then Some(Over(ty, Conjunction(os), inputs)) else None
        else if name == "or" then if Conditions(ts) then Some(Over(ty, Disjunction(os), inputs)) else None
        else if name == "coalesce" then
          if |ts| >= 2 && forall i :: 0 <= i < |ts| ==> Equivalent(ts[0], ts[i]) then Some(Over(ty, FirstKnown(ty, os), inputs))
          else None
        else if |ts| == 3 && ts[0] == Boolean && Equivalent(ty, ts[1]) && Equivalent(ty, ts[2]) then
          Some(Over(ty, IfThenElse(os), inputs))
        else None
  }

  predicate Conditions(ts: seq<Type>) {
    |ts| >= 2 && forall i :: 0 <= i < |ts| ==> ts[i] == Boolean || ts[i] == Unknown
  }

  /** row[n] is the n-th field, counted from one; n is a literal. */
  function SubscriptMeaning(ms: seq<Meaning>): Option<Meaning>
    requires ms != [] && ms[0].ty.Row?
  {
    if |ms| == 2 && ms[1].literal.Some? && ms[1].literal.value.IntV? && 1 <= ms[1].literal.value.n <= |ms[0].ty.fields| then
      var i := ms[1].literal.value.n - 1;
      Some(Over(ms[0].ty.fields[i], FieldAt(ms[0].ty.fields, ms[0].outcome, i), [ms[0]]))
    else None
  }

  /** The argument of a call, which its body sees as a column. */
  function Argument(engine: Engine, m: Meaning, declared: Type): Meaning {
    if Equivalent(m.ty, declared) then Over(m.ty, m.outcome, [])
    else Over(declared, CastOf(engine, m.ty, m.outcome, declared), [])
  }

  function Arguments(engine: Engine, ms: seq<Meaning>, declared: seq<Type>): (r: seq<Meaning>)
    requires |ms| == |declared|
    ensures |r| == |ms| && forall i :: 0 <= i < |ms| ==> r[i] == Argument(engine, ms[i], declared[i])
  {
    seq(|ms|, i requires 0 <= i < |ms| => Argument(engine, ms[i], declared[i]))
  }

  /** A called function must be known, with as many distinct arguments, each used by a body without a
      subquery whose type is the declared one or can be cast to it. */
  ghost function SqlMeaning(
      engine: Engine, cat: Catalog, e: UExpr, name: string, ms: seq<Meaning>, guard: set<string>): Option<Meaning>
    requires cat.sqlFunction(name, TypesOf(ms)).Some? && name !in guard
    decreases cat.sqlNames - guard, e, 0, 0
  {
    var f := cat.sqlFunction(name, TypesOf(ms)).value;
    if name !in cat.sqlNames || |f.argumentTypes| != |ms| || |f.argumentNames| != |ms| || !Distinct(f.argumentNames) then None
    else
      assert cat.sqlNames - (guard + {name}) < cat.sqlNames - guard by { assert name in cat.sqlNames - guard; }
      var args := Arguments(engine, ms, f.argumentTypes);
      match MeaningOf(engine, cat, f.body, Cells(Bind(f.argumentNames, args), map[]), guard + {name})
      case None => None
      case Some(body) =>
        if !body.subquery && UsedColumns(f.body) == (set x | x in f.argumentNames)
           && (Equivalent(body.ty, f.returnType) || cat.coercible(body.ty, f.returnType))
        then Some(CalledMeaning(engine, f, OutcomesOf(args), body).(subquery := AnySubquery(ms)))
        else None
  }

  function CalledMeaning(engine: Engine, f: SqlFunction, args: seq<Outcome>, body: Meaning): Meaning {
    var result := Argument(engine, body, f.returnType);
    if exists i :: 0 <= i < |args| && args[i].Err? then Over(result.ty, Err, [])
    else if f.nullOnNull && exists i :: 0 <= i < |args| && IsNull(args[i]) then Over(result.ty, Null(result.ty), [])
    else result
  }

  // ----- Resolution keeps to it.

  function Describe(engine: Engine, t: Expr, env: Env): Meaning {
    Meaning(t.ty, Eval(engine, t, env), if IsCast(t) then Some((Peeled(t).ty, Eval(engine, Peeled(t), env))) else None,
      if t.Constant? then Some(t.value) else None, ContainsSubquery(t))
  }

  function DescribeAll(engine: Engine, ts: seq<Expr>, env: Env): (ms: seq<Meaning>)
    ensures |ms| == |ts| && forall i :: 0 <= i < |ts| ==> ms[i] == Describe(engine, ts[i], env)
  {
    seq(|ts|, i requires 0 <= i < |ts| => Describe(engine, ts[i], env))
  }

  function DescribeScope(engine: Engine, scope: Scope, env: Env): Cells {
    Cells(map x | x in scope.columns :: Describe(engine, scope.columns[x], env),
          map x | x in scope.qualified :: Describe(engine, scope.qualified[x], env))
  }

  lemma {:induction false} DescribedAll(engine: Engine, ts: seq<Expr>, env: Env)
    ensures TypesOf(DescribeAll(engine, ts, env)) == Types(ts)
    ensures OutcomesOf(DescribeAll(engine, ts, env)) == EvalAll(engine, ts, env)
  {
  }

  lemma {:induction false} DescribedSpecial(engine: Engine, ty: Type, form: Form, ts: seq<Expr>, env: Env)
    requires form != Cast
    ensures Describe(engine, Special(ty, form, ts), env)
         == Over(ty, Combine(engine, form, ty, Types(ts), EvalAll(engine, ts, env)), DescribeAll(engine, ts, env))
  {
    var ms := DescribeAll(engine, ts, env);
    if i :| 0 <= i < |ts| && ContainsSubquery(ts[i]) { assert ms[i].subquery; }
  }

  lemma {:induction false} ConjunctionIsAnd(os: seq<Outcome>)
    ensures Conjunction(os) == AndOr(true, os)
  {
    if os != [] {
      ConjunctionIsAnd(os[1..]);
      assert os == [os[0]] + os[1..];
      AndOrStep(true, os);
    }
  }

  lemma {:induction false} DisjunctionIsOr(os: seq<Outcome>)
    ensures Disjunction(os) == AndOr(false, os)
  {
    if os != [] {
      DisjunctionIsOr(os[1..]);
      AndOrStep(false, os);
    }
  }

  lemma {:induction false} AndOrStep(isAnd: bool, os: seq<Outcome>)
    requires os != []
    ensures AndOr(isAnd, os) == if isAnd then Meet(os[0], AndOr(isAnd, os[1..])) else Join(os[0], AndOr(isAnd, os[1..]))
  {
    var rest := os[1..];
    assert forall i :: 0 <= i < |rest| ==> rest[i] == os[i + 1];
    assert forall i :: 1 <= i < |os| ==> os[i] == rest[i - 1];
  }

  lemma {:induction false} FirstKnownIsFirstNonNull(ty: Type, os: seq<Outcome>)
    ensures FirstKnown(ty, os) == FirstNonNull(ty, os)
  {
    if os != [] { FirstKnownIsFirstNonNull(ty, os[1..]); }
  }

  lemma {:induction false} CastMeans(engine: Engine, t: Expr, ty: Type, env: Env)
    ensures Describe(engine, CastTo(ty, t), env) == CastMeaning(engine, Describe(engine, t, env), ty)
  {
    CastOutcome(engine, t, ty, env);
    assert ContainsSubquery(CastTo(ty, t)) <==> ContainsSubquery(CastTo(ty, t).inputs[0]);
  }

  lemma {:induction false} CoercedMeans(engine: Engine, ts: seq<Expr>, coercions: seq<Option<Type>>, env: Env)
    ensures Coerced(engine, DescribeAll(engine, ts, env), coercions) ==
            match ApplyCoercions(ts, coercions) case Ok(us) => Some(DescribeAll(engine, us, env)) case Fail(_) => None
  {
    if coercions != [] && |coercions| >= |ts| {
      var ms, us := Coerced(engine, DescribeAll(engine, ts, env), coercions).value, ApplyCoercions(ts, coercions).value;
      forall i | 0 <= i < |ts| ensures ms[i] == Describe(engine, us[i], env) {
        if coercions[i].Some? { CastMeans(engine, ts[i], coercions[i].value, env); }
      }
      assert ms == DescribeAll(engine, us, env);
    }
  }

  /** The result of resolving, told as a meaning. */
  ghost function Told(engine: Engine, r: Result<Expr, Error>, env: Env): Option<Meaning> {
    match r case Ok(t) => Some(Describe(engine, t, env)) case Fail(_) => None
  }

  function FormOf(name: string): Form {
    if name == "and" then And else if name == "or" then Or else if name == "coalesce" then Coalesce else If
  }

  lemma {:induction false} FormMeans(engine: Engine, cat: Catalog, name: string, ts: seq<Expr>, env: Env)
    requires name == "and" || name == "or" || name == "coalesce" || (name == "if" && |ts| != 2)
    ensures FormMeaning(engine, cat, name, DescribeAll(engine, ts, env))
         == Told(engine, ResolveFormWithCoercions(cat, FormOf(name), name, ts), env)
  {
    DescribedAll(engine, ts, env);
    var found := cat.form(name, Types(ts));
    if found.Some? {
      CoercedMeans(engine, ts, found.value.coercions, env);
      var coerced := ApplyCoercions(ts, found.value.coercions);
      if coerced.Ok? { CombinedMeans(engine, name, found.value.returnType, coerced.value, env); }
    }
  }

  /** The meaning a form has, if it is valid, by its name. */
  lemma {:induction false} CombinedMeans(engine: Engine, name: string, ty: Type, us: seq<Expr>, env: Env)
    requires name == "and" || name == "or" || name == "coalesce" || (name == "if" && |us| != 2)
    ensures var inputs := DescribeAll(engine, us, env);
            var ts, os := TypesOf(inputs), OutcomesOf(inputs);
            Told(engine, MakeSpecial(ty, FormOf(name), us), env) ==
            if name == "and" then if Conditions(ts) then Some(Over(ty, Conjunction(os), inputs)) else None
            else if name == "or" then if Conditions(ts) then Some(Over(ty, Disjunction(os), inputs)) else None
            else if name == "coalesce" then
              if |ts| >= 2 && forall i :: 0 <= i < |ts| ==> Equivalent(ts[0], ts[i]) then Some(Over(ty, FirstKnown(ty, os), inputs))
              else None
            else if |ts| == 3 && ts[0] == Boolean && Equivalent(ty, ts[1]) && Equivalent(ty, ts[2]) then
              Some(Over(ty, IfThenElse(os), inputs))
            else None
  {
    DescribedAll(engine, us, env);
    var os := EvalAll(engine, us, env);
    DescribedSpecial(engine, ty, FormOf(name), us, env);
    ValidByTypes(ty, FormOf(name), us);
    if name == "and" {
      ConjunctionIsAnd(os);
    } else if name == "or" {
      DisjunctionIsOr(os);
    } else if name == "coalesce" {
      FirstKnownIsFirstNonNull(ty, os);
    }
  }

  lemma {:induction false} ValidByTypes(ty: Type, form: Form, us: seq<Expr>)
    requires form == And || form == Or || form == Coalesce || (form == If && |us| != 2)
    ensures var ts := Types(us);
            ValidSpecial(ty, form, us) <==>
            if form == And || form == Or then Conditions(ts)
            else if form == Coalesce then |ts| >= 2 && forall i :: 0 <= i < |ts| ==> Equivalent(ts[0], ts[i])
            else |ts| == 3 && ts[0] == Boolean && Equivalent(ty, ts[1]) && Equivalent(ty, ts[2])
  {
    var ts := Types(us);
    assert forall i :: 0 <= i < |us| ==> us[i].ty == ts[i];
  }

  lemma {:induction false} NullElseMeans(engine: Engine, ts: seq<Expr>, env: Env)
    ensures var ms := DescribeAll(engine, ts, env);
            DescribeAll(engine, WithNullElse(ts), env) == if |ms| == 2 then ms + [NullOf(ms[1].ty)] else ms
  {
  }

  lemma {:induction false} RowMeans(engine: Engine, names: seq<string>, ts: seq<Expr>, env: Env)
    ensures RowMeaning(names, DescribeAll(engine, ts, env))
         == Describe(engine, Special(Row(names, Types(ts)), RowConstructor, ts), env)
  {
    DescribedAll(engine, ts, env);
    DescribedSpecial(engine, Row(names, Types(ts)), RowConstructor, ts, env);
  }

  /** A dereference by position or by a name no earlier field has. */
  lemma {:induction false} DereferenceMeans(engine: Engine, t: Expr, field: Expr, i: nat, env: Env)
    requires t.ty.Row? && i < |t.ty.fields| && field.Constant? && FieldIndex(t.ty, field.value) == Some(i)
    ensures Describe(engine, Special(t.ty.fields[i], Dereference, [t, field]), env)
         == Over(t.ty.fields[i], FieldAt(t.ty.fields, Eval(engine, t, env), i), [Describe(engine, t, env)])
  {
    var ts := [t, field];
    var os := EvalAll(engine, ts, env);
    assert os == [Eval(engine, t, env), Val(field.value)];
    DescribedSpecial(engine, t.ty.fields[i], Dereference, ts, env);
    assert AnySubquery(DescribeAll(engine, ts, env)) <==> AnySubquery([Describe(engine, t, env)]) by {
      assert DescribeAll(engine, ts, env) == [Describe(engine, t, env), Describe(engine, field, env)];
      if Describe(engine, t, env).subquery {
        assert DescribeAll(engine, ts, env)[0].subquery && [Describe(engine, t, env)][0].subquery;
      }
    }
    if os[0].Val? { AllValues(os, [os[0].value, field.value]); } else { assert os[0].Err?; }
  }

  lemma {:induction false} SubscriptMeans(engine: Engine, ts: seq<Expr>, env: Env)
    requires ts != [] && ts[0].ty.Row?
    ensures SubscriptMeaning(DescribeAll(engine, ts, env)) == Told(engine, ResolveSubscript(ts), env)
  {
    if |ts| == 2 && ts[1].Constant? && ts[1].value.IntV? && 1 <= ts[1].value.n <= |ts[0].ty.fields| {
      var n := ts[1].value.n;
      EquivalentRefl(ts[0].ty.fields[n - 1]);
      DereferenceMeans(engine, ts[0], Constant(Integer, IntV(KInteger, n - 1)), n - 1, env);
    }
  }

  lemma {:induction false} RowResolves(names: seq<string>, ts: seq<Expr>)
    ensures MakeSpecial(Row(names, Types(ts)), RowConstructor, ts) == Ok(Special(Row(names, Types(ts)), RowConstructor, ts))
  {
    forall i | 0 <= i < |ts| ensures Equivalent(ts[i].ty, Types(ts)[i]) { EquivalentRefl(ts[i].ty); }
  }

  /** A special form other than IN: what it means, or that it is rejected. */
  lemma {:induction false} SpecialMeans(engine: Engine, cat: Catalog, name: string, ts: seq<Expr>, env: Env)
    requires name != "in" && (ResolveForm(cat, name, ts).Fail? || ResolveForm(cat, name, ts).value.Some?)
    ensures var r := ResolveForm(cat, name, ts);
            forall e: UExpr, guard :: CallMeaning(engine, cat, e, name, DescribeAll(engine, ts, env), guard)
              == (match r case Ok(t) => Some(Describe(engine, t.value, env)) case Fail(_) => None)
  {
    if name == "and" || name == "or" || name == "coalesce" {
      FormMeans(engine, cat, name, ts, env);
    } else if name == "if" {
      NullElseMeans(engine, ts, env);
      FormMeans(engine, cat, name, WithNullElse(ts), env);
    } else if name == "row_constructor" {
      RowMeans(engine, seq(|ts|, i => ""), ts, env);
      RowResolves(seq(|ts|, i => ""), ts);
      assert seq(|ts|, i => "") == seq(|DescribeAll(engine, ts, env)|, i => "");
    } else if name == "try" {
      if ts != [] { DescribedSpecial(engine, ts[0].ty, Try, ts, env); }
    } else if name == "subscript" {
      SubscriptMeans(engine, ts, env);
    }
  }

  lemma {:induction false} ScalarMeans(engine: Engine, cat: Catalog, name: string, ts: seq<Expr>, env: Env)
    ensures var ms := DescribeAll(engine, ts, env);
            Told(engine, ResolveScalar(cat, name, ts), env) ==
            match cat.scalar(name, TypesOf(ms))
            case None => None
            case Some(signature) =>
              match Coerced(engine, ms, signature.coercions)
              case None => None
              case Some(inputs) => Some(Over(signature.returnType, ApplyScalar(engine, name, OutcomesOf(inputs)), inputs))
  {
    DescribedAll(engine, ts, env);
    var found := cat.scalar(name, Types(ts));
    if found.Some? {
      CoercedMeans(engine, ts, found.value.coercions, env);
      var coerced := ApplyCoercions(ts, found.value.coercions);
      if coerced.Ok? { CalledScalar(engine, found.value.returnType, name, coerced.value, env); }
    }
  }

  lemma {:induction false} CalledScalar(engine: Engine, ty: Type, name: string, us: seq<Expr>, env: Env)
    ensures Describe(engine, Call(ty, name, us), env)
         == Over(ty, ApplyScalar(engine, name, OutcomesOf(DescribeAll(engine, us, env))), DescribeAll(engine, us, env))
  {
    DescribedAll(engine, us, env);
    var ms := DescribeAll(engine, us, env);
    assert Eval(engine, Call(ty, name, us), env) == ApplyScalar(engine, name, EvalAll(engine, us, env));
    if i :| 0 <= i < |us| && ContainsSubquery(us[i]) { assert ms[i].subquery; }
  }

  // ----- Fields.

  lemma {:induction false} FoundField(names: seq<string>, name: string, i: nat)
    requires i <= |names|
    ensures match FindField(names, name, i)
            case Some(k) => SameName(names[k], name) && forall j :: i <= j < k ==> !SameName(names[j], name)
            case None => forall j :: i <= j < |names| ==> !SameName(names[j], name)
    decreases |names| - i
  {
    if i < |names| { FoundField(names, name, i + 1); }
  }

  lemma {:induction false} DecimalSnoc(s: string, c: char, read: nat)
    ensures Decimal(s + [c], read) ==
            match Decimal(s, read)
            case None => None
            case Some(n) => if '0' <= c <= '9' then Some(10 * n + (c as int - '0' as int)) else None
  {
    if s == "" {
      assert ("" + [c])[1..] == "";
    } else {
      assert (s + [c])[1..] == s[1..] + [c];
      if '0' <= s[0] <= '9' { DecimalSnoc(s[1..], c, 10 * read + (s[0] as int - '0' as int)); }
    }
  }

  lemma {:induction false} DigitsAreDecimal(s: string)
    requires s != ""
    ensures Digits(s) == Decimal(s, 0)
  {
    var n := |s| - 1;
    assert s == s[..n] + [s[n]];
    DecimalSnoc(s[..n], s[n], 0);
    if n > 0 { DigitsAreDecimal(s[..n]); }
  }

  lemma {:induction false} FieldMeans(engine: Engine, t: Expr, name: string, env: Env)
    ensures ResolveField(t, name).Ok? <==> exists i: nat :: FieldPosition(t.ty, name, i)
    ensures forall i: nat :: FieldPosition(t.ty, name, i) ==>
              Told(engine, ResolveField(t, name), env)
              == Some(Over(t.ty.fields[i], FieldAt(t.ty.fields, Eval(engine, t, env), i), [Describe(engine, t, env)]))
  {
    if t.ty.Row? {
      FoundField(t.ty.names, name, 0);
      match FindField(t.ty.names, name, 0)
      case Some(k) => NamedFieldMeans(engine, t, name, k, env);
      case None => NumberedFieldMeans(engine, t, name, env);
    }
  }

  lemma {:induction false} NamedFieldMeans(engine: Engine, t: Expr, name: string, k: nat, env: Env)
    requires t.ty.Row? && FindField(t.ty.names, name, 0) == Some(k) && k < |t.ty.names| && SameName(t.ty.names[k], name)
    requires forall j :: 0 <= j < k ==> !SameName(t.ty.names[j], name)
    ensures ResolveField(t, name).Ok? <==> k < |t.ty.fields| && t.ty.names[k] != ""
    ensures forall i: nat :: FieldPosition(t.ty, name, i) <==> i == k < |t.ty.fields| && t.ty.names[k] != ""
    ensures FieldPosition(t.ty, name, k) ==>
              Told(engine, ResolveField(t, name), env)
              == Some(Over(t.ty.fields[k], FieldAt(t.ty.fields, Eval(engine, t, env), k), [Describe(engine, t, env)]))
  {
    assert IndexOf(t.ty.names, t.ty.names[k]) == Some(k);
    if k < |t.ty.fields| {
      EquivalentRefl(t.ty.fields[k]);
      DereferenceMeans(engine, t, Constant(Varchar, StrV(t.ty.names[k])), k, env);
    }
  }

  lemma {:induction false} NumberedFieldMeans(engine: Engine, t: Expr, name: string, env: Env)
    requires t.ty.Row? && FindField(t.ty.names, name, 0) == None
    requires forall j :: 0 <= j < |t.ty.names| ==> !SameName(t.ty.names[j], name)
    ensures ResolveField(t, name).Ok? <==> exists i: nat :: FieldPosition(t.ty, name, i)
    ensures forall i: nat :: FieldPosition(t.ty, name, i) ==>
              Told(engine, ResolveField(t, name), env)
              == Some(Over(t.ty.fields[i], FieldAt(t.ty.fields, Eval(engine, t, env), i), [Describe(engine, t, env)]))
  {
    LegacyMeans(t.ty, name);
    if LegacyOrdinal(t.ty, name).Some? {
      var k := LegacyOrdinal(t.ty, name).value;
      EquivalentRefl(t.ty.fields[k]);
      assert FieldPosition(t.ty, name, k);
      DereferenceMeans(engine, t, Constant(Integer, IntV(KInteger, k)), k, env);
    }
  }

  lemma {:induction false} LegacyMeans(ty: Type, name: string)
    requires ty.Row?
    requires forall j :: 0 <= j < |ty.names| ==> !SameName(ty.names[j], name)
    ensures forall i: nat :: FieldPosition(ty, name, i) <==> LegacyOrdinal(ty, name) == Some(i)
  {
    assert LowerAll("field") == "field";
    if |name| > 5 { DigitsAreDecimal(name[5..]); }
  }

  // ----- IN.

  lemma {:induction false} OperandMeans(engine: Engine, t: Expr, ty: Type, env: Env)
    ensures Operand(engine, Describe(engine, t, env), ty) == Eval(engine, CoerceOne(t, ty), env)
  {
    CoercedOutcomeIs(engine, t, ty, env);
  }

  lemma {:induction false} MembershipIsInList(x: Value, items: seq<Value>)
    ensures Membership(x, items) == TruthValue(InList(x, items))
  {
    MembershipIsDisjunction(x, items);
  }

  lemma {:induction false} CoercedSubqueries(engine: Engine, ts: seq<Expr>, ty: Type, env: Env)
    ensures AnySubquery(DescribeAll(engine, CoerceAll(ts, ty), env)) <==> AnySubquery(DescribeAll(engine, ts, env))
  {
    var ms, ns := DescribeAll(engine, ts, env), DescribeAll(engine, CoerceAll(ts, ty), env);
    forall i | 0 <= i < |ts| ensures ms[i].subquery == ns[i].subquery {
      var u := CoerceOne(ts[i], ty);
      if u.Special? && !Equivalent(ts[i].ty, ty) {
        assert u == CastTo(ty, Peeled(ts[i])) && (ContainsSubquery(u) <==> ContainsSubquery(u.inputs[0]));
        if IsCast(ts[i]) { assert ContainsSubquery(ts[i]) <==> ContainsSubquery(ts[i].inputs[0]); }
      }
    }
  }

  lemma {:induction false} ListInMeans(engine: Engine, superType: (Type, Type) -> Option<Type>, ts: seq<Expr>, env: Env)
    ensures InMeaning(engine, superType, DescribeAll(engine, ts, env)) == Told(engine, ResolveIn(Some(superType), ts), env)
  {
    var ms := DescribeAll(engine, ts, env);
    if |ts| >= 2 {
      assert ms[1..] == DescribeAll(engine, ts[1..], env);
      DescribedAll(engine, ts[1..], env);
      var common := CommonType(superType, ts[0].ty, Types(ts[1..]));
      if common.Some? {
        assert [ts[0]] + ts[1..] == ts;
        ListFormResolves(superType, ts[0], ts[1..], common.value);
        CoercedInMeans(engine, ts, common.value, env);
      }
    }
  }

  lemma {:induction false} CoercedInMeans(engine: Engine, ts: seq<Expr>, ty: Type, env: Env)
    requires |ts| >= 2
    ensures var ms := DescribeAll(engine, ts, env);
            Describe(engine, Special(Boolean, In, CoerceAll(ts, ty)), env) ==
            match ValuesOf(Operands(engine, ms, ty))
            case None => Over(Boolean, Err, ms)
            case Some(vs) => Over(Boolean, Val(Membership(vs[0], vs[1..])), ms)
  {
    var ms, us := DescribeAll(engine, ts, env), CoerceAll(ts, ty);
    forall i | 0 <= i < |ts| ensures Operands(engine, ms, ty)[i] == EvalAll(engine, us, env)[i] {
      OperandMeans(engine, ts[i], ty, env);
    }
    assert Operands(engine, ms, ty) == EvalAll(engine, us, env);
    DescribedSpecial(engine, Boolean, In, us, env);
    CoercedSubqueries(engine, ts, ty, env);
    var vs := ValuesOf(EvalAll(engine, us, env));
    if vs.Some? { MembershipIsInList(vs.value[0], vs.value[1..]); }
  }

  lemma {:induction false} InFormsMean(engine: Engine, cat: Catalog, constant: bool, ts: seq<Expr>, env: Env)
    requires ts != [] && (constant ==> ConstantTail(ts) && |ts| >= 2 && TypedLiterals(ts[1..]))
    ensures InMeaning(engine, cat.superType, DescribeAll(engine, ts, env)) == Told(engine, ResolveInForms(cat, constant, ts), env)
  {
    ListInMeans(engine, cat.superType, ts, env);
    if constant {
      assert [ts[0]] + ts[1..] == ts;
      ConstantInMatchesList(engine, cat.superType, ts[0], ts[1..], env);
      if ResolveIn(Some(cat.superType), ts).Ok? { SameSubqueries(cat, ts); }
    }
  }

  lemma {:induction false} SameSubqueries(cat: Catalog, ts: seq<Expr>)
    requires |ts| >= 2 && ConstantTail(ts)
    requires ResolveConstantIn(Some(cat.superType), ts[0], ts[1..]).Ok? && ResolveIn(Some(cat.superType), ts).Ok?
    ensures var r, list := ResolveConstantIn(Some(cat.superType), ts[0], ts[1..]).value, ResolveIn(Some(cat.superType), ts).value;
            r.Special? && list.Special? && !IsCast(r) && !IsCast(list) && (ContainsSubquery(r) <==> ContainsSubquery(list))
  {
    assert [ts[0]] + ts[1..] == ts;
    var r, list := ResolveConstantIn(Some(cat.superType), ts[0], ts[1..]).value, ResolveIn(Some(cat.superType), ts).value;
    var ty := CommonType(cat.superType, ts[0].ty, Types(ts[1..])).value;
    assert list == Special(Boolean, In, CoerceAll(ts, ty));
    OnlyTheValue(ts, ty);
    if r != list { OnlyTheOperand(r); }
  }

  lemma {:induction false} OnlyTheValue(ts: seq<Expr>, ty: Type)
    requires ts != [] && ConstantTail(ts)
    ensures ContainsSubquery(Special(Boolean, In, CoerceAll(ts, ty))) <==> ContainsSubquery(CoerceOne(ts[0], ty))
  {
    var list := Special(Boolean, In, CoerceAll(ts, ty));
    forall i | 1 <= i < |ts| ensures !ContainsSubquery(list.inputs[i]) {
      assert ts[i].Constant?;
      assert !ContainsSubquery(CastTo(ty, ts[i]).inputs[0]);
    }
    assert list.inputs[0] == CoerceOne(ts[0], ty);
  }

  lemma {:induction false} OnlyTheOperand(r: Expr)
    requires r.Special? && |r.inputs| == 2 && r.inputs[1].Constant?
    ensures ContainsSubquery(r) <==> ContainsSubquery(r.inputs[0])
  {
  }

  // ----- The theorem.

  /** An expression resolves, its calls kept, exactly when it has a meaning, and what it resolves to
      evaluates to that. */
  lemma {:induction false} ResolvedMeans(engine: Engine, cat: Catalog, e: UExpr, scope: Scope, guard: set<string>, env: Env)
    ensures MeaningOf(engine, cat, e, DescribeScope(engine, scope, env), guard)
         == Told(engine, Resolve(cat, e, scope, false, guard), env)
    decreases cat.sqlNames - guard, e, 1, 0
  {
    match e
    case Field(input, name) =>
      if !(input.Column? && (input.name, name) in scope.qualified) {
        ResolvedMeans(engine, cat, input, scope, guard, env);
        var t := Resolve(cat, input, scope, false, guard);
        if t.Ok? { FieldMeans(engine, t.value, name, env); }
      }
    case UCast(ty, tryCast, input) =>
      ResolvedMeans(engine, cat, input, scope, guard, env);
      var t := Resolve(cat, input, scope, false, guard);
      if t.Ok? {
        CastMeans(engine, t.value, ty, env);
        TryCastMeans(engine, t.value, ty, env);
      }
    case URow(_, _) =>
      ResolvedRowMeans(engine, cat, e, scope, guard, env);
    case UCall(_, _) =>
      ResolvedCallMeans(engine, cat, e, scope, guard, env);
    case _ =>
  }

  lemma {:induction false} ResolvedRowMeans(engine: Engine, cat: Catalog, e: UExpr, scope: Scope, guard: set<string>, env: Env)
    requires e.URow?
    ensures MeaningOf(engine, cat, e, DescribeScope(engine, scope, env), guard)
         == Told(engine, Resolve(cat, e, scope, false, guard), env)
    decreases cat.sqlNames - guard, e, 0, 2
  {
    InputsMean(engine, cat, e.inputs, 0, scope, guard, env);
    var ts := ResolveFrom(cat, e.inputs, 0, scope, false, guard);
    if ts.Ok? {
      RowMeans(engine, e.names, ts.value, env);
      RowResolves(e.names, ts.value);
    }
  }

  lemma {:induction false} TryCastMeans(engine: Engine, t: Expr, ty: Type, env: Env)
    ensures Describe(engine, Special(ty, TryCast, [t]), env)
         == Over(ty, TryCastOf(engine, t.ty, Eval(engine, t, env), ty), [Describe(engine, t, env)])
  {
    var o := Eval(engine, t, env);
    DescribedSpecial(engine, ty, TryCast, [t], env);
    assert DescribeAll(engine, [t], env) == [Describe(engine, t, env)];
    assert EvalAll(engine, [t], env) == [o];
    if o.Val? { AllValues([o], [o.value]); } else { assert [o][0].Err?; }
  }

  lemma {:induction false} InputsMean(
      engine: Engine, cat: Catalog, es: seq<UExpr>, i: nat, scope: Scope, guard: set<string>, env: Env)
    requires i <= |es|
    ensures MeaningsOf(engine, cat, es, i, DescribeScope(engine, scope, env), guard)
         == match ResolveFrom(cat, es, i, scope, false, guard) case Ok(ts) => Some(DescribeAll(engine, ts, env)) case Fail(_) => None
    decreases cat.sqlNames - guard, es, 0, |es| - i
  {
    if i < |es| {
      ResolvedMeans(engine, cat, es[i], scope, guard, env);
      InputsMean(engine, cat, es, i + 1, scope, guard, env);
      var t, ts := Resolve(cat, es[i], scope, false, guard), ResolveFrom(cat, es, i + 1, scope, false, guard);
      if t.Ok? && ts.Ok? { DescribedCons(engine, t.value, ts.value, env); }
    }
  }

  lemma {:induction false} DescribedCons(engine: Engine, t: Expr, ts: seq<Expr>, env: Env)
    ensures DescribeAll(engine, [t] + ts, env) == [Describe(engine, t, env)] + DescribeAll(engine, ts, env)
  {
  }

  lemma {:induction false} ResolvedCallMeans(engine: Engine, cat: Catalog, e: UExpr, scope: Scope, guard: set<string>, env: Env)
    requires e.UCall?
    ensures MeaningOf(engine, cat, e, DescribeScope(engine, scope, env), guard)
         == Told(engine, Resolve(cat, e, scope, false, guard), env)
    decreases cat.sqlNames - guard, e, 0, 2
  {
    InputsMean(engine, cat, e.inputs, 0, scope, guard, env);
    var ts := ResolveFrom(cat, e.inputs, 0, scope, false, guard);
    if e.name == "in" {
      InUnfolds(cat, e, scope, false, guard);
      if ts.Ok? && e.inputs != [] {
        var constant := IsConstantIn(e.inputs);
        if constant { LiteralInputs(cat, e.inputs, scope, guard); }
        InFormsMean(engine, cat, constant, ts.value, env);
      }
    } else if ts.Ok? {
      CallMeans(engine, cat, e, e.name, ts.value, guard, env);
    }
  }

  lemma {:induction false} LiteralInputs(cat: Catalog, inputs: seq<UExpr>, scope: Scope, guard: set<string>)
    requires IsConstantIn(inputs) && ResolveFrom(cat, inputs, 0, scope, false, guard).Ok?
    ensures TypedLiterals(ResolveFrom(cat, inputs, 0, scope, false, guard).value[1..])
  {
    var ts := ResolveFrom(cat, inputs, 0, scope, false, guard).value;
    forall j | 1 <= j < |inputs| ensures ts[j].Constant? && HasType(ts[j].value, ts[j].ty) {
      assert inputs[1..][j - 1].Literal?;
      InputResolved(cat, inputs, 0, scope, false, guard, j);
    }
  }

  lemma {:induction false} CallMeans(
      engine: Engine, cat: Catalog, e: UExpr, name: string, ts: seq<Expr>, guard: set<string>, env: Env)
    requires name != "in"
    ensures CallMeaning(engine, cat, e, name, DescribeAll(engine, ts, env), guard)
         == Told(engine, ResolveCall(cat, e, name, ts, false, guard), env)
    decreases cat.sqlNames - guard, e, 0, 1, 1
  {
    if ResolveForm(cat, name, ts).Fail? || ResolveForm(cat, name, ts).value.Some? {
      SpecialMeans(engine, cat, name, ts, env);
    } else {
      PlainCallMeans(engine, cat, e, name, ts, guard, env);
    }
  }

  predicate NoForm(name: string, ms: seq<Meaning>) {
    && name !in {"in", "and", "or", "coalesce", "if", "try", "row_constructor", "switch", "exists", "nullif"}
    && !(name == "subscript" && ms != [] && ms[0].ty.Row?)
  }

  lemma {:induction false} FormsAreNamed(engine: Engine, cat: Catalog, name: string, ts: seq<Expr>, env: Env)
    requires ResolveForm(cat, name, ts) == Ok(None)
    ensures NoForm(name, DescribeAll(engine, ts, env))
  {
  }

  /** A call that is no special form. */
  lemma {:induction false} PlainCallMeans(
      engine: Engine, cat: Catalog, e: UExpr, name: string, ts: seq<Expr>, guard: set<string>, env: Env)
    requires ResolveForm(cat, name, ts) == Ok(None)
    ensures CallMeaning(engine, cat, e, name, DescribeAll(engine, ts, env), guard)
         == Told(engine, ResolveCall(cat, e, name, ts, false, guard), env)
    decreases cat.sqlNames - guard, e, 0, 1, 0
  {
    FormsAreNamed(engine, cat, name, ts, env);
    assert TypesOf(DescribeAll(engine, ts, env)) == Types(ts) by { DescribedAll(engine, ts, env); }
    if name !in guard {
      var f := cat.sqlFunction(name, Types(ts));
      if f.None? { ScalarMeans(engine, cat, name, ts, env); } else { SqlMeans(engine, cat, e, name, f.value, ts, guard, env); }
    }
  }

  lemma {:induction false} SqlMeans(
      engine: Engine, cat: Catalog, e: UExpr, name: string, f: SqlFunction, ts: seq<Expr>, guard: set<string>, env: Env)
    requires cat.sqlFunction(name, Types(ts)) == Some(f) && name !in guard
    requires TypesOf(DescribeAll(engine, ts, env)) == Types(ts)
    ensures ResolveSqlFunction(cat, e, name, ts, false, guard) != Ok(None)
    ensures SqlMeaning(engine, cat, e, name, DescribeAll(engine, ts, env), guard)
         == match ResolveSqlFunction(cat, e, name, ts, false, guard) case Ok(t) => Some(Describe(engine, t.value, env)) case Fail(_) => None
    decreases cat.sqlNames - guard, e, 0, 0
  {
    SqlUnfolds(cat, e, name, f, ts, false, guard);
    if name in cat.sqlNames && CheckSignature(f, ts).Ok? {
      assert cat.sqlNames - (guard + {name}) < cat.sqlNames - guard by { assert name in cat.sqlNames - guard; }
      var args, q := CastArguments(ts, f.argumentTypes), BodyScope(f, CastArguments(ts, f.argumentTypes), false);
      ArgumentsMean(engine, f, ts, env);
      ResolvedMeans(engine, cat, f.body, q, guard + {name}, Bind(f.argumentNames, EvalAll(engine, args, env)));
      var u := Resolve(cat, f.body, q, false, guard + {name});
      if u.Ok? { CalledMeans(engine, cat, f, ts, u.value, env); }
    }
  }

  lemma {:induction false} ArgumentsMean(engine: Engine, f: SqlFunction, ts: seq<Expr>, env: Env)
    requires |f.argumentNames| == |ts| == |f.argumentTypes| && Distinct(f.argumentNames)
    ensures var args, ms := CastArguments(ts, f.argumentTypes), Arguments(engine, DescribeAll(engine, ts, env), f.argumentTypes);
            && OutcomesOf(ms) == EvalAll(engine, args, env)
            && Cells(Bind(f.argumentNames, ms), map[])
               == DescribeScope(engine, BodyScope(f, args, false), Bind(f.argumentNames, EvalAll(engine, args, env)))
  {
    var args, ms := CastArguments(ts, f.argumentTypes), Arguments(engine, DescribeAll(engine, ts, env), f.argumentTypes);
    forall i | 0 <= i < |ts| ensures ms[i] == Over(args[i].ty, Eval(engine, args[i], env), []) {
      CastOutcome(engine, ts[i], f.argumentTypes[i], env);
    }
    assert OutcomesOf(ms) == EvalAll(engine, args, env);
    ParametersMean(engine, f, args, ms, EvalAll(engine, args, env));
  }

  lemma {:induction false} ParametersMean(engine: Engine, f: SqlFunction, args: seq<Expr>, ms: seq<Meaning>, os: seq<Outcome>)
    requires |f.argumentNames| == |args| == |ms| == |os| && Distinct(f.argumentNames)
    requires forall i :: 0 <= i < |args| ==> ms[i] == Over(args[i].ty, os[i], [])
    ensures Cells(Bind(f.argumentNames, ms), map[])
         == DescribeScope(engine, BodyScope(f, args, false), Bind(f.argumentNames, os))
  {
    var names, q := f.argumentNames, BodyScope(f, args, false);
    var cells := DescribeScope(engine, q, Bind(names, os));
    forall x | x in q.columns ensures Bind(names, ms)[x] == cells.columns[x] {
      ParameterMeans(engine, names, args, ms, os, x);
    }
    assert Bind(names, ms) == cells.columns;
  }

  lemma {:induction false} ParameterMeans(
      engine: Engine, names: seq<string>, args: seq<Expr>, ms: seq<Meaning>, os: seq<Outcome>, x: string)
    requires |names| == |args| == |ms| == |os| && Distinct(names) && x in Bind(names, Params(names, args))
    requires forall i :: 0 <= i < |args| ==> ms[i] == Over(args[i].ty, os[i], [])
    ensures x in Bind(names, ms) && Bind(names, ms)[x] == Describe(engine, Bind(names, Params(names, args))[x], Bind(names, os))
  {
    var i :| 0 <= i < |names| && names[i] == x;
    assert Bind(names, Params(names, args))[x] == InputRef(args[i].ty, x) by { BindAt(names, Params(names, args), i); }
    assert x in Bind(names, ms) && Bind(names, ms)[x] == ms[i] by { BindAt(names, ms, i); }
    assert Lookup(Bind(names, os), x) == os[i] by { BindAt(names, os, i); }
    DescribedColumn(engine, args[i].ty, x, Bind(names, os));
  }

  lemma {:induction false} DescribedColumn(engine: Engine, ty: Type, x: string, env: Env)
    ensures Describe(engine, InputRef(ty, x), env) == Over(ty, Lookup(env, x), [])
  {
  }

  lemma {:induction false} CalledMeans(engine: Engine, cat: Catalog, f: SqlFunction, ts: seq<Expr>, u: Expr, env: Env)
    requires |f.argumentNames| == |ts| == |f.argumentTypes|
    ensures var args := CastArguments(ts, f.argumentTypes);
            var os := EvalAll(engine, args, env);
            var body := Describe(engine, u, Bind(f.argumentNames, os));
            Told(engine, FinishBody(cat, f, args, u, false), env) ==
            if !body.subquery && UsedColumns(f.body) == (set x | x in f.argumentNames)
               && (Equivalent(body.ty, f.returnType) || cat.coercible(body.ty, f.returnType))
            then Some(CalledMeaning(engine, f, os, body).(subquery := AnySubquery(DescribeAll(engine, ts, env)))) else None
  {
    var args := CastArguments(ts, f.argumentTypes);
    var os := EvalAll(engine, args, env);
    var inner := Bind(f.argumentNames, os);
    if FinishBody(cat, f, args, u, false).Ok? {
      var result := CastResult(cat, u, f.returnType).value;
      FinishedCall(cat, f, args, u);
      CalledResult(engine, f, args, u, result, env);
      CalledSubquery(engine, f, ts, u, result, env);
    }
  }

  lemma {:induction false} FinishedCall(cat: Catalog, f: SqlFunction, args: seq<Expr>, u: Expr)
    requires FinishBody(cat, f, args, u, false).Ok?
    ensures var result := CastResult(cat, u, f.returnType).value;
            && FinishBody(cat, f, args, u, false).value == SqlCall(result.ty, f.argumentNames, args, result, f.nullOnNull)
            && result == (if Equivalent(u.ty, f.returnType) then u else CastTo(f.returnType, u))
  {
  }

  lemma {:induction false} CalledResult(engine: Engine, f: SqlFunction, args: seq<Expr>, u: Expr, result: Expr, env: Env)
    requires result == if Equivalent(u.ty, f.returnType) then u else CastTo(f.returnType, u)
    ensures var os := EvalAll(engine, args, env);
            var m := CalledMeaning(engine, f, os, Describe(engine, u, Bind(f.argumentNames, os)));
            && m.ty == result.ty && m.under == None && m.literal == None
            && m.outcome == Eval(engine, SqlCall(result.ty, f.argumentNames, args, result, f.nullOnNull), env)
  {
    var os := EvalAll(engine, args, env);
    CastOutcome(engine, u, f.returnType, Bind(f.argumentNames, os));
    CalledOutcome(engine, SqlCall(result.ty, f.argumentNames, args, result, f.nullOnNull), env);
  }

  lemma {:induction false} CalledSubquery(engine: Engine, f: SqlFunction, ts: seq<Expr>, u: Expr, result: Expr, env: Env)
    requires |ts| == |f.argumentTypes| && !ContainsSubquery(u) && (result == u || result == CastTo(f.returnType, u))
    ensures var args := CastArguments(ts, f.argumentTypes);
            ContainsSubquery(SqlCall(result.ty, f.argumentNames, args, result, f.nullOnNull))
            <==> AnySubquery(DescribeAll(engine, ts, env))
  {
    var args, ms := CastArguments(ts, f.argumentTypes), DescribeAll(engine, ts, env);
    if result != u { assert ContainsSubquery(result) <==> ContainsSubquery(result.inputs[0]); }
    forall i | 0 <= i < |ts| ensures ContainsSubquery(args[i]) <==> ms[i].subquery {
      if args[i] != ts[i] { assert ContainsSubquery(args[i]) <==> ContainsSubquery(args[i].inputs[0]); }
    }
  }

  lemma {:induction false} CalledOutcome(engine: Engine, call: Expr, env: Env)
    requires call.SqlCall?
    ensures var os := EvalAll(engine, call.args, env);
            Eval(engine, call, env) ==
            if exists i :: 0 <= i < |os| && os[i].Err? then Err
            else if call.nullOnNull && exists i :: 0 <= i < |os| && IsNull(os[i]) then Null(call.ty)
            else Eval(engine, call.body, Bind(call.params, os))
  {
    var os := EvalAll(engine, call.args, env);
    if !AnyErr(os) {
      forall i | 0 <= i < |os| ensures Eval(engine, call.args[i], env).Val? { assert os[i].Val?; }
      CallOutcome(engine, call.ty, call.params, call.args, call.body, call.nullOnNull, env);
    }
  }

  /** So an inlined expression evaluates to what the expression means, wherever the calls settle
      that and IN keeps its meaning. */
  lemma {:induction false} InlinedMeans(engine: Engine, cat: Catalog, e: UExpr, scope: Scope, guard: set<string>, env: Env)
    requires Resolve(cat, e, scope, true, guard).Ok? && Resolve(cat, e, scope, false, guard).Ok?
    ensures var t, m := Resolve(cat, e, scope, true, guard).value, MeaningOf(engine, cat, e, DescribeScope(engine, scope, env), guard);
            && m.Some? && t.ty == m.value.ty
            && (Comparable(engine, Resolve(cat, e, scope, false, guard).value, env) ==>
                  KeepsIn(Sides(engine, env, env), cat, e, scope, scope, guard) ==>
                    Eval(engine, t, env) == m.value.outcome)
  {
    ResolvedMeans(engine, cat, e, scope, guard, env);
    InliningPreservesMeaning(engine, cat, e, scope, guard, env);
  }
}
