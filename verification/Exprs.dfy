/** Resolved expressions and what they evaluate to, with SQL NULLs and errors. */
module Exprs {
  import opened Wrappers
  import opened Values

  datatype Form =
    | And | Or | Cast | TryCast | Try | Dereference | Coalesce | If | In | InArray | RowConstructor

  /** A resolved expression. CoercedSubquery is a subquery under a projection that casts its
      one column. SqlCall is a reference form the resolver never builds: a SQL
      function called rather than inlined, carrying its resolved body. */
  datatype Expr =
    | InputRef(ty: Type, name: string)
    | Constant(ty: Type, value: Value)
    | Call(ty: Type, name: string, inputs: seq<Expr>)
    | Special(ty: Type, form: Form, inputs: seq<Expr>)
    | Subquery(ty: Type, id: string)
    | CoercedSubquery(ty: Type, query: Expr)
    | SqlCall(ty: Type, params: seq<string>, args: seq<Expr>, body: Expr, nullOnNull: bool)

  function Types(es: seq<Expr>): (ts: seq<Type>)
    ensures |ts| == |es|
    ensures forall i :: 0 <= i < |es| ==> ts[i] == es[i].ty
  {
    seq(|es|, i requires 0 <= i < |es| => es[i].ty)
  }

  datatype Outcome = Val(value: Value) | Err

  /** What the execution engine supplies: scalar functions, casts that are not conversions
      between integers or rows, and the results of subqueries. */
  datatype Engine = Engine(
    apply: (string, seq<Value>) -> Outcome,
    cast: (Value, Type, Type) -> Outcome,
    subquery: string -> Outcome)

  type Env = map<string, Outcome>

  function Lookup(env: Env, x: string): Outcome {
    if x in env then env[x] else Err
  }

  // ----- Casts.

  /** CAST: NULL stays NULL, an integer keeps its number or overflows, a row casts its fields. */
  function CastValue(engine: Engine, v: Value, from: Type, to: Type): Outcome
    decreases v
  {
    if Equivalent(from, to) then Val(v)
    else if v.NullV? then Val(NullV(KindOf(to)))
    else if v.IntV? && IntegerRank(from).Some? && IntegerRank(to).Some? then
      if InRange(KindOf(to), v.n) then Val(IntV(KindOf(to), v.n)) else Err
    else if v.RowV? && from.Row? && to.Row? && |v.fields| == |from.fields| == |to.fields| then
      RowOf(seq(|v.fields|, i requires 0 <= i < |v.fields| =>
        CastValue(engine, v.fields[i], from.fields[i], to.fields[i])))
    else engine.cast(v, from, to)
  }

  ghost predicate AnyErr(os: seq<Outcome>) {
    exists i :: 0 <= i < |os| && os[i].Err?
  }

  /** The values of outcomes none of which is an error. */
  function ValuesOf(os: seq<Outcome>): (vs: Option<seq<Value>>)
    ensures vs.None? <==> AnyErr(os)
    ensures vs.Some? ==> |vs.value| == |os| && forall i :: 0 <= i < |os| ==> os[i] == Val(vs.value[i])
  {
    if os == [] then Some([])
    else if os[0].Err? then None
    else
      match ValuesOf(os[1..])
      case None =>
        assert AnyErr(os) by { var i :| 0 <= i < |os[1..]| && os[1..][i].Err?; assert os[i + 1].Err?; }
        None
      case Some(vs) => Some([os[0].value] + vs)
  }

  function RowOf(os: seq<Outcome>): Outcome {
    match ValuesOf(os)
    case None => Err
    case Some(vs) => Val(RowV(vs))
  }

  // ----- Three-valued logic.

  datatype Truth = True | False | Maybe

  function TruthValue(t: Truth): Value {
    match t
    case True => BoolV(true)
    case False => BoolV(false)
    case Maybe => NullV(KBoolean)
  }

  function And3(a: Truth, b: Truth): Truth {
    if a == False || b == False then False else if a == Maybe || b == Maybe then Maybe else True
  }

  function Or3(a: Truth, b: Truth): Truth {
    if a == True || b == True then True else if a == Maybe || b == Maybe then Maybe else False
  }

  /** SQL equality: unknown on NULL, fieldwise on rows. */
  function Equal3(v: Value, w: Value): Truth
    decreases v
  {
    if v.NullV? || w.NullV? then Maybe
    else if v.RowV? && w.RowV? && |v.fields| == |w.fields| then AllEqual3(v.fields, w.fields, 0)
    else if v.ArrayV? && w.ArrayV? && |v.elements| == |w.elements| then AllEqual3(v.elements, w.elements, 0)
    else if v == w then True
    else False
  }

  function AllEqual3(vs: seq<Value>, ws: seq<Value>, i: nat): Truth
    requires i <= |vs| == |ws|
    decreases vs, |vs| - i
  {
    if i == |vs| then True else And3(Equal3(vs[i], ws[i]), AllEqual3(vs, ws, i + 1))
  }

  /** x IN (items): the disjunction of the comparisons, as the SQL standard defines it. */
  function InList(x: Value, items: seq<Value>): Truth {
    if items == [] then False else Or3(Equal3(x, items[0]), InList(x, items[1..]))
  }

  /** Membership in an array value: found, not found, or not known for a NULL. */
  function InElements(x: Value, elements: seq<Value>): Truth {
    if exists i :: 0 <= i < |elements| && Equal3(x, elements[i]) == True then True
    else if exists i :: 0 <= i < |elements| && Equal3(x, elements[i]) == Maybe then Maybe
    else False
  }

  // ----- Special forms combine the outcomes of their inputs.

  function AndOr(isAnd: bool, os: seq<Outcome>): Outcome {
    if exists i :: 0 <= i < |os| && os[i] == Val(BoolV(!isAnd)) then Val(BoolV(!isAnd))
    else if exists i :: 0 <= i < |os| && os[i].Err? then Err
    else if exists i :: 0 <= i < |os| && os[i].Val? && os[i].value.NullV? then Val(NullV(KBoolean))
    else Val(BoolV(isAnd))
  }

  function FirstNonNull(ty: Type, os: seq<Outcome>): Outcome {
    if os == [] then Val(NullV(KindOf(ty)))
    else if os[0].Val? && os[0].value.NullV? then FirstNonNull(ty, os[1..])
    else os[0]
  }

  function FieldIndex(t: Type, field: Value): Option<nat> {
    if !t.Row? then None
    else if field.IntV? then
      if 0 <= field.n < |t.fields| then Some(field.n) else None
    else if field.StrV? then IndexOf(t.names, field.s)
    else None
  }

  function IndexOf(names: seq<string>, name: string): (r: Option<nat>)
    ensures r.Some? ==> r.value < |names| && names[r.value] == name
    ensures r.Some? ==> forall j :: 0 <= j < r.value ==> names[j] != name
    ensures r.None? ==> name !in names
  {
    if names == [] then None
    else if names[0] == name then Some(0)
    else match IndexOf(names[1..], name) case None => None case Some(i) => Some(i + 1)
  }

  function FieldOf(t: Type, row: Value, field: Value): Outcome {
    if row.NullV? then
      match FieldIndex(t, field)
      case Some(i) => if t.Row? && i < |t.fields| then Val(NullV(KindOf(t.fields[i]))) else Err
      case None => Err
    else
      match FieldIndex(t, field)
      case Some(i) => if row.RowV? && i < |row.fields| then Val(row.fields[i]) else Err
      case None => Err
  }

  function Combine(engine: Engine, form: Form, ty: Type, types: seq<Type>, os: seq<Outcome>): Outcome
    requires |types| == |os|
  {
    match form
    case And => AndOr(true, os)
    case Or => AndOr(false, os)
    case Coalesce => FirstNonNull(ty, os)
    case If =>
      if |os| < 2 || os[0].Err? then Err
      else if os[0].value == BoolV(true) then os[1]
      else if |os| == 3 then os[2] else Val(NullV(KindOf(ty)))
    case Try => if |os| != 1 then Err else if os[0].Err? then Val(NullV(KindOf(ty))) else os[0]
    case _ => CombineStrict(engine, form, ty, types, os)
  }

  /** The forms that evaluate every input, and so fail when one does. */
  function CombineStrict(engine: Engine, form: Form, ty: Type, types: seq<Type>, os: seq<Outcome>): (r: Outcome)
    requires |types| == |os|
    ensures AnyErr(os) ==> r.Err?
  {
    match ValuesOf(os)
    case None => Err
    case Some(vs) =>
      match form
      case Cast => if |vs| == 1 then CastValue(engine, vs[0], types[0], ty) else Err
      case TryCast =>
        if |vs| == 1 then
          var r := CastValue(engine, vs[0], types[0], ty);
          if r.Err? then Val(NullV(KindOf(ty))) else r
        else Err
      case Dereference => if |vs| == 2 then FieldOf(types[0], vs[0], vs[1]) else Err
      case RowConstructor => Val(RowV(vs))
      case In => if |vs| >= 2 then Val(TruthValue(InList(vs[0], vs[1..]))) else Err
      case InArray =>
        if |vs| == 2 && vs[1].ArrayV? then Val(TruthValue(InElements(vs[0], vs[1].elements))) else Err
      case _ => Err
  }

  function ApplyScalar(engine: Engine, name: string, os: seq<Outcome>): (r: Outcome)
    ensures AnyErr(os) ==> r.Err?
  {
    match ValuesOf(os)
    case None => Err
    case Some(vs) =>
      if name == "is_null" && |vs| == 1 then Val(BoolV(vs[0].NullV?)) else engine.apply(name, vs)
  }

  /** Evaluates over an environment of column outcomes. A called SQL function evaluates its
      arguments once and its body over their values. */
  function Eval(engine: Engine, e: Expr, env: Env): Outcome
    decreases e
  {
    match e
    case InputRef(_, x) => Lookup(env, x)
    case Constant(_, v) => Val(v)
    case Subquery(_, id) => engine.subquery(id)
    case CoercedSubquery(ty, query) =>
      var o := Eval(engine, query, env);
      if o.Err? then Err else CastValue(engine, o.value, query.ty, ty)
    case Call(_, name, inputs) =>
      ApplyScalar(engine, name, seq(|inputs|, i requires 0 <= i < |inputs| => Eval(engine, inputs[i], env)))
    case Special(ty, form, inputs) =>
      Combine(engine, form, ty, Types(inputs),
        seq(|inputs|, i requires 0 <= i < |inputs| => Eval(engine, inputs[i], env)))
    case SqlCall(ty, params, args, body, nullOnNull) =>
      var os := seq(|args|, i requires 0 <= i < |args| => Eval(engine, args[i], env));
      match ValuesOf(os)
      case None => Err
      case Some(vs) =>
        if nullOnNull && exists i :: 0 <= i < |vs| && vs[i].NullV? then Val(NullV(KindOf(ty)))
        else Eval(engine, body, Bind(params, os))
  }

  function EvalAll(engine: Engine, es: seq<Expr>, env: Env): (os: seq<Outcome>)
    ensures |os| == |es|
    ensures forall i :: 0 <= i < |es| ==> os[i] == Eval(engine, es[i], env)
  {
    seq(|es|, i requires 0 <= i < |es| => Eval(engine, es[i], env))
  }

  /** Pairs names with values position by position; meant for distinct names. */
  function Bind<T>(names: seq<string>, xs: seq<T>): (m: map<string, T>)
    ensures |names| == |xs| ==> m.Keys == set x | x in names
  {
    if names == [] || |names| != |xs| then map[]
    else
      var n := |names| - 1;
      assert names == names[..n] + [names[n]];
      Bind(names[..n], xs[..n])[names[n] := xs[n]]
  }

  predicate Distinct(names: seq<string>) {
    forall i, j :: 0 <= i < j < |names| ==> names[i] != names[j]
  }

  lemma {:induction false} BindAt<T>(names: seq<string>, xs: seq<T>, i: nat)
    requires |names| == |xs| && Distinct(names) && i < |names|
    ensures names[i] in Bind(names, xs) && Bind(names, xs)[names[i]] == xs[i]
  {
    var n := |names| - 1;
    if i < n { BindAt(names[..n], xs[..n], i); }
  }
}
