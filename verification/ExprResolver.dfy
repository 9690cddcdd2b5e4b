/** The resolver as it runs: a mutable set of the SQL functions being inlined guards against
    recursion, and a set of the arguments a body looked up backs the usage check. */
module ExprResolver {
  import opened Wrappers
  import opened Values
  import opened Exprs
  import opened Resolver

  function PrependTo(done: seq<Expr>, r: Result<seq<Expr>, Error>): Result<seq<Expr>, Error> {
    match r case Ok(es) => Ok(done + es) case Fail(x) => Fail(x)
  }

  lemma {:induction false} PrependStep(done: seq<Expr>, head: Expr, tail: Result<seq<Expr>, Error>)
    ensures PrependTo(done, PrependTo([head], tail)) == PrependTo(done + [head], tail)
    ensures PrependTo([], tail) == tail
  {
    if tail.Ok? {
      assert done + ([head] + tail.value) == (done + [head]) + tail.value;
      assert [] + tail.value == tail.value;
    }
  }

  lemma {:induction false} UsedInPrefix(es: seq<UExpr>, i: nat)
    requires i < |es|
    ensures UsedInAny(es[..i + 1]) == UsedInAny(es[..i]) + UsedColumns(es[i])
  {
    forall x | x in UsedInAny(es[..i]) + UsedColumns(es[i]) ensures x in UsedInAny(es[..i + 1]) {
      if x in UsedColumns(es[i]) {
        assert es[..i + 1][i] == es[i];
      } else {
        var j :| 0 <= j < i && x in UsedColumns(es[..i][j]);
        assert es[..i + 1][j] == es[..i][j];
      }
    }
    forall x | x in UsedInAny(es[..i + 1]) ensures x in UsedInAny(es[..i]) + UsedColumns(es[i]) {
      var j :| 0 <= j < i + 1 && x in UsedColumns(es[..i + 1][j]);
      if j < i { assert es[..i][j] == es[..i + 1][j]; }
    }
  }

  lemma {:induction false} SubsetSizes(a: set<string>, b: set<string>)
    requires a <= b
    ensures |a| == |b| <==> a == b
  {
    assert b == a + (b - a);
    assert |b| == |a| + |b - a|;
  }

  class ExprResolver {
    const cat: Catalog
    /** Names of the SQL functions whose bodies are being resolved. */
    var inliningFunctions: set<string>

    constructor (cat: Catalog)
      ensures this.cat == cat && inliningFunctions == {}
    {
      this.cat := cat;
      inliningFunctions := {};
    }

    /** Resolves an expression over a scope, adding the names it looks up to the used ones. The
        guard set is afterwards what it was before, whether resolution succeeds or fails. */
    method ResolveScalarTypes(e: UExpr, scope: Scope, used: set<string>)
      returns (r: Result<Expr, Error>, used': set<string>)
      modifies this
      ensures r == Resolve(cat, e, scope, true, old(inliningFunctions))
      ensures inliningFunctions == old(inliningFunctions)
      ensures r.Ok? && scope.qualified == map[] ==> used' == used + UsedColumns(e)
      ensures r.Ok? && scope.qualified == map[] && used <= scope.columns.Keys ==> used' <= scope.columns.Keys
      decreases cat.sqlNames - inliningFunctions, e, 1, 0
    {
      used' := used;
      match e {
        case Column(x) =>
          if x !in scope.columns { r := Fail(UnknownName); return; }
          r, used' := Ok(scope.columns[x]), used + {x};
        case Field(input, name) =>
          if input.Column? && (input.name, name) in scope.qualified {
            r := Ok(scope.qualified[(input.name, name)]);
            return;
          }
          r, used' := ResolveScalarTypes(input, scope, used);
          if r.Ok? { r := ResolveField(r.value, name); }
        case Literal(ty, v) =>
          r := if HasType(v, ty) then Ok(Constant(ty, v)) else Fail(BadConstant);
        case UCall(name, inputs) =>
          if name == "in" && |inputs| >= 3 && AllLiterals(inputs[1..]) {
            r, used' := ResolveScalarTypes(inputs[0], scope, used);
            if r.Fail? { return; }
            var literals := Constants(inputs[1..]);
            if literals.Fail? { r := Fail(literals.error); return; }
            r := ConstantIn(Some(cat.superType), r.value, literals.value);
            return;
          }
          var resolved;
          resolved, used' := ResolveScalarInputs(inputs, scope, used);
          if resolved.Fail? { r := Fail(resolved.error); return; }
          r := ResolveResolvedCall(e, name, resolved.value);
        case UCast(ty, tryCast, input) =>
          r, used' := ResolveScalarTypes(input, scope, used);
          if r.Ok? { r := MakeSpecial(ty, if tryCast then TryCast else Cast, [r.value]); }
        case URow(names, inputs) =>
          var resolved;
          resolved, used' := ResolveScalarInputs(inputs, scope, used);
          if resolved.Fail? { r := Fail(resolved.error); return; }
          r := MakeSpecial(Row(names, Types(resolved.value)), RowConstructor, resolved.value);
        case USubquery(ty, id) =>
          r := Ok(Subquery(ty, id));
      }
    }

    /** A call whose inputs are resolved: a special form, a SQL function, or a scalar function. */
    method ResolveResolvedCall(e: UExpr, name: string, resolved: seq<Expr>) returns (r: Result<Expr, Error>)
      modifies this
      ensures r == ResolveCall(cat, e, name, resolved, true, old(inliningFunctions))
      ensures inliningFunctions == old(inliningFunctions)
      decreases cat.sqlNames - inliningFunctions, e, 0, 1
    {
      var inputs := ToArray(resolved);
      var special := TryResolveSpecialForm(cat, name, inputs);
      if special.Fail? { return Fail(special.error); }
      if special.value.Some? { return Ok(special.value.value); }
      var inlined := InlineSqlFunction(e, name, inputs[..]);
      if inlined.Fail? { return Fail(inlined.error); }
      if inlined.value.Some? { return Ok(inlined.value.value); }
      r := ResolveScalarFunction(cat, name, inputs);
    }

    method ResolveScalarInputs(es: seq<UExpr>, scope: Scope, used: set<string>)
      returns (r: Result<seq<Expr>, Error>, used': set<string>)
      modifies this
      ensures r == ResolveFrom(cat, es, 0, scope, true, old(inliningFunctions))
      ensures inliningFunctions == old(inliningFunctions)
      ensures r.Ok? && scope.qualified == map[] ==>
                used' == used + UsedInAny(es)
      ensures r.Ok? && scope.qualified == map[] && used <= scope.columns.Keys ==> used' <= scope.columns.Keys
      decreases cat.sqlNames - inliningFunctions, es, 0
    {
      var result: seq<Expr> := [];
      used' := used;
      var i := 0;
      PrependStep([], Constant(Unknown, NullV(KUnknown)), ResolveFrom(cat, es, 0, scope, true, inliningFunctions));
      while i < |es|
        invariant 0 <= i <= |es| && inliningFunctions == old(inliningFunctions)
        invariant ResolveFrom(cat, es, 0, scope, true, inliningFunctions) ==
                  PrependTo(result, ResolveFrom(cat, es, i, scope, true, inliningFunctions))
        invariant scope.qualified == map[] ==>
                    used' == used + UsedInAny(es[..i])
        invariant scope.qualified == map[] && used <= scope.columns.Keys ==> used' <= scope.columns.Keys
      {
        var head;
        head, used' := ResolveScalarTypes(es[i], scope, used');
        if head.Fail? { r := Fail(head.error); return; }
        PrependStep(result, head.value, ResolveFrom(cat, es, i + 1, scope, true, inliningFunctions));
        result := result + [head.value];
        UsedInPrefix(es, i);
        i := i + 1;
      }
      assert es[..i] == es && result + [] == result;
      r := Ok(result);
    }

    /** Inlines a SQL function, or gives None when the name is not one. */
    method InlineSqlFunction(e: UExpr, name: string, inputs: seq<Expr>) returns (r: Result<Option<Expr>, Error>)
      modifies this
      ensures r == ResolveSqlFunction(cat, e, name, inputs, true, old(inliningFunctions))
      ensures inliningFunctions == old(inliningFunctions)
      decreases cat.sqlNames - inliningFunctions, e, 0, 0
    {
      if name in inliningFunctions { return Fail(RecursiveFunction(name)); }
      var found := cat.sqlFunction(name, Types(inputs));
      if found.None? { return Ok(None); }
      var f := found.value;
      if name !in cat.sqlNames { return Fail(NoSignature); }
      if |f.argumentNames| != |inputs| || |f.argumentTypes| != |f.argumentNames| { return Fail(ArityMismatch); }

      ghost var guard := inliningFunctions;
      inliningFunctions := inliningFunctions + {name};
      r := InlineBody(name, f, inputs, guard);
      inliningFunctions := inliningFunctions - {name};
      assert inliningFunctions == guard;
    }

    method InlineBody(name: string, f: SqlFunction, inputs: seq<Expr>, ghost guard: set<string>)
      returns (r: Result<Option<Expr>, Error>)
      requires name !in guard && name in cat.sqlNames && inliningFunctions == guard + {name}
      requires cat.sqlFunction(name, Types(inputs)) == Some(f)
      requires |f.argumentNames| == |inputs| == |f.argumentTypes|
      modifies this
      ensures r == ResolveSqlFunction(cat, UCall(name, []), name, inputs, true, guard)
      ensures inliningFunctions == old(inliningFunctions)
      decreases cat.sqlNames - inliningFunctions, f.body, 2
    {
      var bound := BindArguments(f, inputs);
      if bound.Fail? { return Fail(bound.error); }
      var (args, bindings) := bound.value;
      var body, usedArguments := ResolveScalarTypes(f.body, Scope(bindings, map[]), {});
      if body.Fail? { return Fail(body.error); }
      if ContainsSubquery(body.value) { return Fail(SubqueryInBody); }
      SubsetSizes(usedArguments, bindings.Keys);
      if |usedArguments| != |bindings| { return Fail(UnusedArgument); }
      var result := CastResult(cat, body.value, f.returnType);
      if result.Fail? { return Fail(result.error); }
      r := Ok(Some(if f.nullOnNull then NullGuard(result.value, args) else result.value));
    }

    /** Binds each argument name to its argument, cast to the declared type. */
    method BindArguments(f: SqlFunction, inputs: seq<Expr>) returns (r: Result<(seq<Expr>, map<string, Expr>), Error>)
      requires |f.argumentNames| == |inputs| == |f.argumentTypes|
      ensures r == if Distinct(f.argumentNames)
                   then Ok((CastArguments(inputs, f.argumentTypes),
                            Bind(f.argumentNames, CastArguments(inputs, f.argumentTypes))))
                   else Fail(DuplicateArgument)
    {
      var args: seq<Expr>, bindings: map<string, Expr> := [], map[];
      var i := 0;
      while i < |inputs|
        invariant 0 <= i <= |inputs| && |args| == i
        invariant args == CastArguments(inputs[..i], f.argumentTypes[..i])
        invariant bindings == Bind(f.argumentNames[..i], args)
        invariant Distinct(f.argumentNames[..i])
      {
        var arg := if Equivalent(inputs[i].ty, f.argumentTypes[i]) then inputs[i] else CastTo(f.argumentTypes[i], inputs[i]);
        if f.argumentNames[i] in bindings {
          DistinctOneMore(f.argumentNames, args, i);
          return Fail(DuplicateArgument);
        }
        DistinctOneMore(f.argumentNames, args, i);
        BindOneMore(f.argumentNames, args, i, arg);
        CastOneMore(inputs, f.argumentTypes, i);
        bindings := bindings[f.argumentNames[i] := arg];
        args := args + [arg];
        i := i + 1;
      }
      assert f.argumentNames[..i] == f.argumentNames && inputs[..i] == inputs && f.argumentTypes[..i] == f.argumentTypes;

      r := Ok((args, bindings));
    }
  }

  lemma {:induction false} DistinctOneMore(names: seq<string>, args: seq<Expr>, i: nat)
    requires i < |names| && |args| == i && Distinct(names[..i])
    ensures names[i] !in Bind(names[..i], args) ==> Distinct(names[..i + 1])
    ensures names[i] in Bind(names[..i], args) ==> !Distinct(names)
  {
    if names[i] in Bind(names[..i], args) {
      assert names[i] in names[..i];
      var j :| 0 <= j < i && names[..i][j] == names[i];
      assert names[j] == names[i];
    }
  }

  lemma {:induction false} BindOneMore(names: seq<string>, args: seq<Expr>, i: nat, arg: Expr)
    requires i < |names| && |args| == i
    ensures Bind(names[..i + 1], args + [arg]) == Bind(names[..i], args)[names[i] := arg]
  {
    assert names[..i + 1][..i] == names[..i];
    assert (args + [arg])[..i] == args;
  }

  lemma {:induction false} CastOneMore(inputs: seq<Expr>, types: seq<Type>, i: nat)
    requires i < |inputs| == |types|
    ensures CastArguments(inputs[..i + 1], types[..i + 1])
         == CastArguments(inputs[..i], types[..i])
            + [if Equivalent(inputs[i].ty, types[i]) then inputs[i] else CastTo(types[i], inputs[i])]
  {
  }

  // ----- The loops over a call's inputs.

  method ToArray(es: seq<Expr>) returns (a: array<Expr>)
    ensures fresh(a) && a[..] == es
  {
    a := new Expr[|es|](i requires 0 <= i < |es| => es[i]);
  }

  /** The input, cast if it has a coercion; inputs past the coercions are left alone. */
  function Coerced(inputs: seq<Expr>, coercions: seq<Option<Type>>, i: nat): Expr
    requires i < |inputs|
  {
    if i < |coercions| && coercions[i].Some? then CastTo(coercions[i].value, inputs[i]) else inputs[i]
  }

  /** applyCoercions: casts in place the inputs that have a coercion. It fails on coercions that
      are too few, once it has cast the inputs that have one. */
  method CoerceInPlace(inputs: array<Expr>, coercions: seq<Option<Type>>) returns (r: Result<(), Error>)
    modifies inputs
    ensures match ApplyCoercions(old(inputs[..]), coercions)
            case Ok(es) => r == Ok(()) && inputs[..] == es
            case Fail(x) => r == Fail(x)
    ensures forall j :: 0 <= j < inputs.Length ==> inputs[j] == Coerced(old(inputs[..]), coercions, j)
  {
    if coercions == [] { return Ok(()); }
    for i := 0 to inputs.Length
      invariant i <= |coercions|
      invariant forall j :: i <= j < inputs.Length ==> inputs[j] == old(inputs[j])
      invariant forall j :: 0 <= j < i ==> inputs[j] == Coerced(old(inputs[..]), coercions, j)
    {
      if i >= |coercions| { return Fail(NoSignature); }
      if coercions[i].Some? { inputs[i] := CastTo(coercions[i].value, inputs[i]); }
    }
    assert inputs[..] == ApplyCoercions(old(inputs[..]), coercions).value;
    r := Ok(());
  }

  /** resolveSpecialFormWithCoercions. */
  method ResolveFormInPlace(cat: Catalog, form: Form, name: string, inputs: array<Expr>) returns (r: Result<Expr, Error>)
    modifies inputs
    ensures r == ResolveFormWithCoercions(cat, form, name, old(inputs[..]))
  {
    var signature := cat.form(name, Types(inputs[..]));
    if signature.None? { return Fail(NoSignature); }
    var coerced := CoerceInPlace(inputs, signature.value.coercions);
    if coerced.Fail? { return Fail(coerced.error); }
    r := MakeSpecial(signature.value.returnType, form, inputs[..]);
  }

  /** tryResolveSpecialForm: None, with the inputs as they were, when the name is no special form. */
  method TryResolveSpecialForm(cat: Catalog, name: string, inputs: array<Expr>) returns (r: Result<Option<Expr>, Error>)
    modifies inputs
    ensures r == ResolveForm(cat, name, old(inputs[..]))
    ensures r == Ok(None) ==> inputs[..] == old(inputs[..])
  {
    var e: Result<Expr, Error>;
    if name == "and" {
      e := ResolveFormInPlace(cat, And, name, inputs);
    } else if name == "or" {
      e := ResolveFormInPlace(cat, Or, name, inputs);
    } else if name == "coalesce" {
      e := ResolveFormInPlace(cat, Coalesce, name, inputs);
    } else if name == "if" {
      var withElse := ToArray(WithNullElse(inputs[..]));
      e := ResolveFormInPlace(cat, If, name, withElse);
    } else if name == "in" {
      e := ResolveInInPlace(Some(cat.superType), inputs);
    } else {
      return ResolveForm(cat, name, inputs[..]);
    }
    r := Lift(e);
  }

  /** resolveScalarFunction. */
  method ResolveScalarFunction(cat: Catalog, name: string, inputs: array<Expr>) returns (r: Result<Expr, Error>)
    modifies inputs
    ensures r == ResolveScalar(cat, name, old(inputs[..]))
  {
    var signature := cat.scalar(name, Types(inputs[..]));
    if signature.None? { return Fail(NoSignature); }
    var coerced := CoerceInPlace(inputs, signature.value.coercions);
    if coerced.Fail? { return Fail(coerced.error); }
    r := Ok(Call(signature.value.returnType, name, inputs[..]));
  }

  // ----- IN.

  /** resolveIn: folds the common type from the left, then coerces the inputs in place. */
  method ResolveInInPlace(coercer: Option<(Type, Type) -> Option<Type>>, inputs: array<Expr>)
    returns (r: Result<Expr, Error>)
    modifies inputs
    ensures r == ResolveIn(coercer, old(inputs[..]))
  {
    if coercer.Some? {
      if inputs.Length < 2 { return Fail(BadForm); }
      var ty := FoldTypes(coercer.value, inputs[0].ty, inputs[1..]);
      if ty.None? { return Fail(NoCommonType); }
      CoerceAllInPlace(inputs, ty.value);
    }
    r := MakeSpecial(Boolean, In, inputs[..]);
  }

  /** tryResolveConstantIn: the literals as one array if each converts unchanged, else the list form. */
  method ConstantIn(coercer: Option<(Type, Type) -> Option<Type>>, value: Expr, literals: seq<Expr>)
    returns (r: Result<Expr, Error>)
    requires forall i :: 0 <= i < |literals| ==> literals[i].Constant?
    ensures r == ResolveConstantIn(coercer, value, literals)
  {
    var ty := Some(value.ty);
    if coercer.Some? { ty := FoldTypes(coercer.value, value.ty, literals); }
    if ty.Some? && !ty.value.Unknown? {
      var elements := MakeLiteralArray(literals, ty.value);
      if elements.Some? {
        var operand := if Equivalent(value.ty, ty.value) then value else ApplyCoercion(value, ty.value);
        return MakeSpecial(Boolean, InArray, [operand, Constant(Array(ty.value), ArrayV(elements.value))]);
      }
    }
    var inputs := ToArray([value] + literals);
    r := ResolveInInPlace(coercer, inputs);
  }

  method FoldTypes(superType: (Type, Type) -> Option<Type>, first: Type, rest: seq<Expr>) returns (r: Option<Type>)
    ensures r == CommonType(superType, first, Types(rest))
  {
    var ty := first;
    ghost var ts := Types(rest);
    for i := 0 to |rest|
      invariant CommonType(superType, first, ts) == CommonType(superType, ty, ts[i..])
    {
      var common := superType(ty, rest[i].ty);
      assert ts[i] == rest[i].ty && ts[i..][1..] == ts[i + 1..];
      if common.None? { return None; }
      ty := common.value;
    }
    r := Some(ty);
  }

  method CoerceAllInPlace(inputs: array<Expr>, ty: Type)
    modifies inputs
    ensures inputs[..] == CoerceAll(old(inputs[..]), ty)
  {
    for i := 0 to inputs.Length
      invariant forall j :: 0 <= j < i ==> inputs[j] == CoerceOne(old(inputs[j]), ty)
      invariant forall j :: i <= j < inputs.Length ==> inputs[j] == old(inputs[j])
    {
      if !Equivalent(inputs[i].ty, ty) { inputs[i] := ApplyCoercion(inputs[i], ty); }
    }
  }

  /** tryMakeLiteralArray: stops at the first literal that does not convert unchanged. */
  method MakeLiteralArray(literals: seq<Expr>, ty: Type) returns (r: Option<seq<Value>>)
    requires forall i :: 0 <= i < |literals| ==> literals[i].Constant?
    ensures r == LiteralArray(literals, ty)
  {
    var elements: seq<Value> := [];
    assert literals[0..] == literals;
    ghost var whole := LiteralArray(literals, ty);
    assert After([], whole) == whole by { if whole.Some? { assert [] + whole.value == whole.value; } }
    for i := 0 to |literals|
      invariant LiteralArray(literals, ty) == After(elements, LiteralArray(literals[i..], ty))
    {
      var element := ConvertConstant(literals[i].value, literals[i].ty, ty);
      assert literals[i..][1..] == literals[i + 1..];
      if !element.Converted? { return None; }
      AfterOneMore(elements, element.value, LiteralArray(literals[i + 1..], ty));
      elements := elements + [element.value];
    }
    assert literals[|literals|..] == [] && elements + [] == elements;
    r := Some(elements);
  }

  function After(elements: seq<Value>, rest: Option<seq<Value>>): Option<seq<Value>> {
    match rest case None => None case Some(es) => Some(elements + es)
  }

  lemma {:induction false} AfterOneMore(elements: seq<Value>, v: Value, rest: Option<seq<Value>>)
    ensures After(elements, After([v], rest)) == After(elements + [v], rest)
  {
    if rest.Some? { assert elements + ([v] + rest.value) == elements + [v] + rest.value; }
  }
}
