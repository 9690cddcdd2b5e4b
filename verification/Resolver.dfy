/** The scalar expression resolver: names, casts, special forms, IN, and SQL functions inlined
    by binding their arguments into their bodies. */
module Resolver {
  import opened Wrappers
  import opened Values
  import opened Exprs

  /** Untyped expressions, as a parser delivers them. */
  datatype UExpr =
    | Column(name: string)
    | Field(input: UExpr, field: string)
    | Literal(ty: Type, value: Value)
    | UCall(name: string, inputs: seq<UExpr>)
    | UCast(ty: Type, tryCast: bool, input: UExpr)
    | URow(names: seq<string>, inputs: seq<UExpr>)
    | USubquery(ty: Type, id: string)

  datatype Error =
    | UnknownName | NotAStruct | NoSuchField | BadConstant | BadForm | NoSignature
    | NoCommonType | RecursiveFunction(name: string) | ArityMismatch | DuplicateArgument
    | SubqueryInBody | UnusedArgument | NotCoercible | NotModelled

  /** A signature match: the result type, and a cast per input where one is needed. */
  datatype Signature = Signature(returnType: Type, coercions: seq<Option<Type>>)

  datatype SqlFunction = SqlFunction(
    argumentNames: seq<string>,
    argumentTypes: seq<Type>,
    body: UExpr,
    returnType: Type,
    nullOnNull: bool)

  /** Lookups the resolver delegates: function signatures, the coercion lattice, SQL functions.
      The SQL functions have finitely many names. */
  datatype Catalog = Catalog(
    scalar: (string, seq<Type>) -> Option<Signature>,
    form: (string, seq<Type>) -> Option<Signature>,
    superType: (Type, Type) -> Option<Type>,
    coercible: (Type, Type) -> bool,
    sqlFunction: (string, seq<Type>) -> Option<SqlFunction>,
    sqlNames: set<string>)

  /** What names mean: unqualified columns, and columns qualified by a table alias. */
  datatype Scope = Scope(columns: map<string, Expr>, qualified: map<(string, string), Expr>)

  // ----- Building checked expressions.

  predicate IsCast(e: Expr) {
    e.Special? && e.form == Cast && |e.inputs| == 1
  }

  predicate IsSubquery(e: Expr) {
    e.Subquery? || e.CoercedSubquery?
  }

  predicate ContainsSubquery(e: Expr) {
    match e
    case Call(_, _, inputs) => exists i :: 0 <= i < |inputs| && ContainsSubquery(inputs[i])
    case Special(_, _, inputs) => exists i :: 0 <= i < |inputs| && ContainsSubquery(inputs[i])
    case SqlCall(_, _, args, body, _) =>
      ContainsSubquery(body) || exists i :: 0 <= i < |args| && ContainsSubquery(args[i])
    case _ => IsSubquery(e)
  }

  /** The checks of the special form constructors. They look at types, and at the field of a
      dereference, which must be a constant. */
  predicate ValidSpecial(ty: Type, form: Form, inputs: seq<Expr>) {
    match form
    case And => |inputs| >= 2 && forall i :: 0 <= i < |inputs| ==> inputs[i].ty.Boolean? || inputs[i].ty.Unknown?
    case Or => |inputs| >= 2 && forall i :: 0 <= i < |inputs| ==> inputs[i].ty.Boolean? || inputs[i].ty.Unknown?
    case Cast => |inputs| == 1
    case TryCast => |inputs| == 1
    case Try => |inputs| == 1
    case Dereference =>
      && |inputs| == 2 && inputs[0].ty.Row? && inputs[1].Constant? && (inputs[1].ty.Varchar? || inputs[1].ty.Integer?)
      && FieldIndex(inputs[0].ty, inputs[1].value).Some?
      && FieldIndex(inputs[0].ty, inputs[1].value).value < |inputs[0].ty.fields|
      && Equivalent(ty, inputs[0].ty.fields[FieldIndex(inputs[0].ty, inputs[1].value).value])
      && inputs[1].value != StrV("")
    case Coalesce => |inputs| >= 2 && forall i :: 0 <= i < |inputs| ==> Equivalent(inputs[0].ty, inputs[i].ty)
    case If =>
      && 2 <= |inputs| <= 3 && inputs[0].ty.Boolean?
      && forall i :: 1 <= i < |inputs| ==> Equivalent(ty, inputs[i].ty)
    case In =>
      && ty.Boolean? && |inputs| >= 2
      && forall i :: 1 <= i < |inputs| ==> Equivalent(inputs[i].ty, inputs[0].ty)
    case InArray =>
      && ty.Boolean? && |inputs| == 2 && Equivalent(inputs[1].ty, Array(inputs[0].ty)) && inputs[1].Constant?
      && inputs[1].value.ArrayV? && inputs[1].value.elements != []
    case RowConstructor =>
      && ty.Row? && |inputs| == |ty.fields|
      && forall i :: 0 <= i < |inputs| ==> Equivalent(inputs[i].ty, ty.fields[i])
  }

  function MakeSpecial(ty: Type, form: Form, inputs: seq<Expr>): Result<Expr, Error> {
    if ValidSpecial(ty, form, inputs) then Ok(Special(ty, form, inputs)) else Fail(BadForm)
  }

  function CastTo(ty: Type, e: Expr): Expr {
    Special(ty, Cast, [e])
  }

  /** Casts each input that has a coercion. No coercions at all is an empty list. */
  function ApplyCoercions(inputs: seq<Expr>, coercions: seq<Option<Type>>): Result<seq<Expr>, Error> {
    if coercions == [] then Ok(inputs)
    else if |coercions| < |inputs| then Fail(NoSignature)
    else Ok(seq(|inputs|, i requires 0 <= i < |inputs| =>
      if coercions[i].Some? then CastTo(coercions[i].value, inputs[i]) else inputs[i]))
  }

  /** Coerces the checked value or a list value of IN. A cast gets a new target type rather
      than a second cast on top; a subquery is cast under a projection. */
  function ApplyCoercion(e: Expr, ty: Type): Expr {
    if IsCast(e) then CastTo(ty, e.inputs[0])
    else if IsSubquery(e) then CoercedSubquery(ty, e)
    else CastTo(ty, e)
  }

  // ----- IN.

  /** Folds the least common super type from the left. */
  function CommonType(superType: (Type, Type) -> Option<Type>, t: Type, ts: seq<Type>): Option<Type>
    decreases |ts|
  {
    if ts == [] then Some(t)
    else match superType(t, ts[0]) case None => None case Some(u) => CommonType(superType, u, ts[1..])
  }

  function CoerceAll(inputs: seq<Expr>, ty: Type): (r: seq<Expr>)
    ensures |r| == |inputs|
    ensures forall i :: 0 <= i < |r| ==> r[i] == CoerceOne(inputs[i], ty)
  {
    seq(|inputs|, i requires 0 <= i < |inputs| => CoerceOne(inputs[i], ty))
  }

  function CoerceOne(e: Expr, ty: Type): Expr {
    if Equivalent(e.ty, ty) then e else ApplyCoercion(e, ty)
  }

  /** The list form of IN: one input per value. Without a coercer nothing is cast. */
  function ResolveIn(coercer: Option<(Type, Type) -> Option<Type>>, inputs: seq<Expr>): Result<Expr, Error> {
    match coercer
    case None => MakeSpecial(Boolean, In, inputs)
    case Some(superType) =>
      if |inputs| < 2 then Fail(BadForm)
      else
        match CommonType(superType, inputs[0].ty, Types(inputs[1..]))
        case None => Fail(NoCommonType)
        case Some(ty) => MakeSpecial(Boolean, In, CoerceAll(inputs, ty))
  }

  /** The constants as one array of the type, if each converts unchanged. */
  function LiteralArray(literals: seq<Expr>, ty: Type): Option<seq<Value>>
    requires forall i :: 0 <= i < |literals| ==> literals[i].Constant?
  {
    if literals == [] then Some([])
    else
      var head := TryConvert(literals[0].value, literals[0].ty, ty);
      if !head.Converted? then None
      else match LiteralArray(literals[1..], ty) case None => None case Some(es) => Some([head.value] + es)
  }

  /** IN over two or more literals: IN_ARRAY when every literal converts unchanged to the common
      type, else the list form. */
  function ResolveConstantIn(
      coercer: Option<(Type, Type) -> Option<Type>>, value: Expr, literals: seq<Expr>): Result<Expr, Error>
    requires forall i :: 0 <= i < |literals| ==> literals[i].Constant?
  {
    var common :=
      match coercer
      case None => Some(value.ty)
      case Some(superType) => CommonType(superType, value.ty, Types(literals));
    if common.Some? && !common.value.Unknown? && LiteralArray(literals, common.value).Some? then
      var elements := LiteralArray(literals, common.value).value;
      MakeSpecial(Boolean, InArray,
        [CoerceOne(value, common.value), Constant(Array(common.value), ArrayV(elements))])
    else ResolveIn(coercer, [value] + literals)
  }

  // ----- Special forms other than casts.

  function WithNullElse(inputs: seq<Expr>): seq<Expr> {
    if |inputs| == 2 then inputs + [Constant(inputs[1].ty, NullV(KindOf(inputs[1].ty)))] else inputs
  }

  function ResolveFormWithCoercions(cat: Catalog, form: Form, name: string, inputs: seq<Expr>): Result<Expr, Error> {
    match cat.form(name, Types(inputs))
    case None => Fail(NoSignature)
    case Some(signature) =>
      var coerced :- ApplyCoercions(inputs, signature.coercions);
      MakeSpecial(signature.returnType, form, coerced)
  }

  /** row[index] on a row value: a constant one-based index becomes a zero-based dereference. */
  function ResolveSubscript(inputs: seq<Expr>): Result<Expr, Error>
    requires |inputs| > 0 && inputs[0].ty.Row?
  {
    if |inputs| != 2 || !inputs[1].Constant? || !inputs[1].value.IntV? then Fail(BadConstant)
    else
      var index := inputs[1].value.n;
      if index < 1 || index > |inputs[0].ty.fields| then Fail(NoSuchField)
      else
        MakeSpecial(inputs[0].ty.fields[index - 1], Dereference,
          [inputs[0], Constant(Integer, IntV(KInteger, index - 1))])
  }

  /** None when the name is not a special form. */
  function ResolveForm(cat: Catalog, name: string, inputs: seq<Expr>): Result<Option<Expr>, Error> {
    if name == "and" then Lift(ResolveFormWithCoercions(cat, And, name, inputs))
    else if name == "or" then Lift(ResolveFormWithCoercions(cat, Or, name, inputs))
    else if name == "row_constructor" then
      Lift(MakeSpecial(Row(seq(|inputs|, i => ""), Types(inputs)), RowConstructor, inputs))
    else if name == "try" then if inputs == [] then Fail(BadForm) else Lift(MakeSpecial(inputs[0].ty, Try, inputs))
    else if name == "coalesce" then Lift(ResolveFormWithCoercions(cat, Coalesce, name, inputs))
    else if name == "if" then Lift(ResolveFormWithCoercions(cat, If, name, WithNullElse(inputs)))
    else if name == "subscript" && |inputs| > 0 && inputs[0].ty.Row? then Lift(ResolveSubscript(inputs))
    else if name == "in" then Lift(ResolveIn(Some(cat.superType), inputs))
    else if name == "switch" || name == "exists" || name == "nullif" then Fail(NotModelled)
    else Ok(None)
  }

  function Lift(r: Result<Expr, Error>): Result<Option<Expr>, Error> {
    match r case Ok(e) => Ok(Some(e)) case Fail(x) => Fail(x)
  }

  function ResolveScalar(cat: Catalog, name: string, inputs: seq<Expr>): Result<Expr, Error> {
    match cat.scalar(name, Types(inputs))
    case None => Fail(NoSignature)
    case Some(signature) =>
      var coerced :- ApplyCoercions(inputs, signature.coercions);
      Ok(Call(signature.returnType, name, coerced))
  }

  // ----- Struct fields.

  function Lower(c: char): char {
    if 'A' <= c <= 'Z' then (c as int + 32) as char else c
  }

  function LowerAll(s: string): string {
    seq(|s|, i requires 0 <= i < |s| => Lower(s[i]))
  }

  /** The first field whose name matches, ignoring case. */
  function FindField(names: seq<string>, name: string, i: nat): (r: Option<nat>)
    requires i <= |names|
    ensures r.Some? ==> i <= r.value < |names|
    decreases |names| - i
  {
    if i == |names| then None
    else if LowerAll(names[i]) == LowerAll(name) then Some(i)
    else FindField(names, name, i + 1)
  }

  function Digits(s: string): Option<nat> {
    if s == "" then None
    else if !('0' <= s[|s| - 1] <= '9') then None
    else
      var last := s[|s| - 1] as int - '0' as int;
      if |s| == 1 then Some(last)
      else match Digits(s[..|s| - 1]) case None => None case Some(n) => Some(10 * n + last)
  }

  /** fieldN names the N-th field of a row when that field has no name. */
  function LegacyOrdinal(t: Type, name: string): (r: Option<nat>)
    requires t.Row?
    ensures r.Some? ==> r.value < |t.fields|
  {
    if |name| < 5 || LowerAll(name[..5]) != "field" then None
    else
      match Digits(name[5..])
      case None => None
      case Some(n) => if n < |t.fields| && n < |t.names| && t.names[n] == "" then Some(n) else None
  }

  function ResolveField(input: Expr, name: string): Result<Expr, Error> {
    if !input.ty.Row? then Fail(NotAStruct)
    else
      match FindField(input.ty.names, name, 0)
      case Some(i) =>
        if i < |input.ty.fields| then
          MakeSpecial(input.ty.fields[i], Dereference, [input, Constant(Varchar, StrV(input.ty.names[i]))])
        else Fail(NoSuchField)
      case None =>
        match LegacyOrdinal(input.ty, name)
        case None => Fail(NoSuchField)
        case Some(n) => MakeSpecial(input.ty.fields[n], Dereference, [input, Constant(Integer, IntV(KInteger, n))])
  }

  // ----- SQL functions.

  /** The names an expression looks up. */
  function UsedColumns(e: UExpr): set<string> {
    match e
    case Column(x) => {x}
    case Field(input, _) => UsedColumns(input)
    case UCall(_, inputs) => UsedInAny(inputs)
    case UCast(_, _, input) => UsedColumns(input)
    case URow(_, inputs) => UsedInAny(inputs)
    case Literal(_, _) => {}
    case USubquery(_, _) => {}
  }

  function UsedInAny(es: seq<UExpr>): (used: set<string>)
    ensures forall x :: x in used <==> exists i :: 0 <= i < |es| && x in UsedColumns(es[i])
  {
    set i, x | 0 <= i < |es| && x in UsedColumns(es[i]) :: x
  }

  function CastArguments(inputs: seq<Expr>, types: seq<Type>): (args: seq<Expr>)
    requires |inputs| == |types|
    ensures |args| == |inputs|
    ensures forall i :: 0 <= i < |args| ==>
              args[i] == if Equivalent(inputs[i].ty, types[i]) then inputs[i] else CastTo(types[i], inputs[i])
  {
    seq(|inputs|, i requires 0 <= i < |inputs| =>
      if Equivalent(inputs[i].ty, types[i]) then inputs[i] else CastTo(types[i], inputs[i]))
  }

  /** The parameters as columns of their own, with the types of the bound arguments. */
  function Params(names: seq<string>, args: seq<Expr>): (ps: seq<Expr>)
    requires |names| == |args|
    ensures |ps| == |args|
    ensures forall i :: 0 <= i < |ps| ==> ps[i] == InputRef(args[i].ty, names[i])
  {
    seq(|args|, i requires 0 <= i < |args| => InputRef(args[i].ty, names[i]))
  }

  function CastResult(cat: Catalog, body: Expr, returnType: Type): Result<Expr, Error> {
    if Equivalent(body.ty, returnType) then Ok(body)
    else if cat.coercible(body.ty, returnType) then Ok(CastTo(returnType, body))
    else Fail(NotCoercible)
  }

  function NullTests(args: seq<Expr>): (tests: seq<Expr>)
    ensures |tests| == |args|
    ensures forall i :: 0 <= i < |args| ==> tests[i] == Call(Boolean, "is_null", [args[i]])
  {
    seq(|args|, i requires 0 <= i < |args| => Call(Boolean, "is_null", [args[i]]))
  }

  /** IF(is_null(a0) OR ... OR is_null(an), NULL, body), for RETURNS NULL ON NULL INPUT. */
  function NullGuard(body: Expr, args: seq<Expr>): Expr {
    if args == [] then body
    else
      var tests := NullTests(args);
      Special(body.ty, If,
        [if |args| == 1 then tests[0] else Special(Boolean, Or, tests), Constant(body.ty, NullV(KindOf(body.ty))), body])
  }

  /** The mismatches resolveSqlFunction rejects before it resolves the body. */
  function CheckSignature(f: SqlFunction, inputs: seq<Expr>): (r: Result<seq<Expr>, Error>)
    ensures r.Ok? ==> |f.argumentNames| == |inputs| == |f.argumentTypes| && Distinct(f.argumentNames)
    ensures r.Ok? ==> r.value == CastArguments(inputs, f.argumentTypes)
  {
    if |f.argumentNames| != |inputs| || |f.argumentTypes| != |f.argumentNames| then Fail(ArityMismatch)
    else if !Distinct(f.argumentNames) then Fail(DuplicateArgument)
    else Ok(CastArguments(inputs, f.argumentTypes))
  }

  /** The checks on the resolved body, its cast to the declared type, and the null guard. */
  function FinishBody(
      cat: Catalog, f: SqlFunction, args: seq<Expr>, body: Expr, inlined: bool): Result<Expr, Error>
  {
    if ContainsSubquery(body) then Fail(SubqueryInBody)
    else if UsedColumns(f.body) != (set x | x in f.argumentNames) then Fail(UnusedArgument)
    else
      var result :- CastResult(cat, body, f.returnType);
      if inlined then Ok(if f.nullOnNull then NullGuard(result, args) else result)
      else Ok(SqlCall(result.ty, f.argumentNames, args, result, f.nullOnNull))
  }

  /** Resolves an expression. With inlined false, a call of a SQL function stays a call of its
      resolved body; that is the reference the inlining is compared with. */
  function Resolve(cat: Catalog, e: UExpr, scope: Scope, inlined: bool, guard: set<string>): Result<Expr, Error>
    decreases cat.sqlNames - guard, e, 1, 0
  {
    match e
    case Column(x) => if x in scope.columns then Ok(scope.columns[x]) else Fail(UnknownName)
    case Field(input, name) =>
      if input.Column? && (input.name, name) in scope.qualified then Ok(scope.qualified[(input.name, name)])
      else
        var resolved :- Resolve(cat, input, scope, inlined, guard);
        ResolveField(resolved, name)
    case Literal(ty, v) => if HasType(v, ty) then Ok(Constant(ty, v)) else Fail(BadConstant)
    case UCall(name, inputs) =>
      if name == "in" && |inputs| >= 3 && AllLiterals(inputs[1..]) then
        var value :- Resolve(cat, inputs[0], scope, inlined, guard);
        var literals :- Constants(inputs[1..]);
        ResolveConstantIn(Some(cat.superType), value, literals)
      else
        var resolved :- ResolveFrom(cat, inputs, 0, scope, inlined, guard);
        ResolveCall(cat, e, name, resolved, inlined, guard)
    case UCast(ty, tryCast, input) =>
      var resolved :- Resolve(cat, input, scope, inlined, guard);
      MakeSpecial(ty, if tryCast then TryCast else Cast, [resolved])
    case URow(names, inputs) =>
      var resolved :- ResolveFrom(cat, inputs, 0, scope, inlined, guard);
      MakeSpecial(Row(names, Types(resolved)), RowConstructor, resolved)
    case USubquery(ty, id) => Ok(Subquery(ty, id))
  }

  function ResolveFrom(
      cat: Catalog, es: seq<UExpr>, i: nat, scope: Scope, inlined: bool, guard: set<string>)
      : (r: Result<seq<Expr>, Error>)
    requires i <= |es|
    ensures r.Ok? ==> |r.value| == |es| - i
    decreases cat.sqlNames - guard, es, 0, |es| - i
  {
    if i == |es| then Ok([])
    else
      var head :- Resolve(cat, es[i], scope, inlined, guard);
      var tail :- ResolveFrom(cat, es, i + 1, scope, inlined, guard);
      Ok([head] + tail)
  }

  /** A call with resolved inputs: a special form, else a SQL function, else a scalar function. */
  function ResolveCall(
      cat: Catalog, e: UExpr, name: string, inputs: seq<Expr>, inlined: bool, guard: set<string>): Result<Expr, Error>
    decreases cat.sqlNames - guard, e, 0, 1
  {
    var special :- ResolveForm(cat, name, inputs);
    if special.Some? then Ok(special.value)
    else
      var sql :- ResolveSqlFunction(cat, e, name, inputs, inlined, guard);
      if sql.Some? then Ok(sql.value) else ResolveScalar(cat, name, inputs)
  }

  /** None when the name is not a SQL function. A name being inlined is a recursive reference. */
  function ResolveSqlFunction(
      cat: Catalog, e: UExpr, name: string, inputs: seq<Expr>, inlined: bool, guard: set<string>)
      : Result<Option<Expr>, Error>
    decreases cat.sqlNames - guard, e, 0, 0
  {
    if name in guard then Fail(RecursiveFunction(name))
    else
      match cat.sqlFunction(name, Types(inputs))
      case None => Ok(None)
      case Some(f) =>
        if name !in cat.sqlNames then Fail(NoSignature)
        else
          var args :- CheckSignature(f, inputs);
          var bound := Bind(f.argumentNames, if inlined then args else Params(f.argumentNames, args));
          assert cat.sqlNames - (guard + {name}) < cat.sqlNames - guard by {
            assert name in cat.sqlNames - guard;
          }
          var body :- Resolve(cat, f.body, Scope(bound, map[]), inlined, guard + {name});
          Lift(FinishBody(cat, f, args, body, inlined))
  }

  predicate AllLiterals(es: seq<UExpr>) {
    forall i :: 0 <= i < |es| ==> es[i].Literal?
  }

  function Constants(es: seq<UExpr>): (r: Result<seq<Expr>, Error>)
    requires AllLiterals(es)
    ensures r.Ok? ==> |r.value| == |es| && forall i :: 0 <= i < |es| ==> r.value[i] == Constant(es[i].ty, es[i].value)
    ensures r.Ok? <==> forall i :: 0 <= i < |es| ==> HasType(es[i].value, es[i].ty)
  {
    if forall i :: 0 <= i < |es| ==> HasType(es[i].value, es[i].ty) then
      Ok(seq(|es|, i requires 0 <= i < |es| => Constant(es[i].ty, es[i].value)))
    else Fail(BadConstant)
  }
}
