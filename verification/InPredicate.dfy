/** IN over literals: the array form against the list form, and what coercing the checked value
    does to a cast. */
module InPredicate {
  import opened Wrappers
  import opened Values
  import opened Exprs
  import opened Resolver
  import opened Inlining

  // ----- A lossless conversion is what the engine's cast computes.

  lemma {:induction false} CastExtendsConversion(engine: Engine, v: Value, from: Type, to: Type)
    requires HasType(v, from) && TryConvert(v, from, to).Converted?
    ensures CastValue(engine, v, from, to) == Val(TryConvert(v, from, to).value)
    decreases v
  {
    if !Equivalent(from, to) && !v.NullV? {
      if IntegerRank(from).Some? && IntegerRank(to).Some? {
        WideningFits(from, to, v.n);
      } else {
        RowConversion(v, from, to);
        var os := seq(|v.fields|, i requires 0 <= i < |v.fields| =>
          CastValue(engine, v.fields[i], from.fields[i], to.fields[i]));
        CastFields(engine, v.fields, from.fields, to.fields, 0);
        var ws := TryConvert(v, from, to).value.fields;
        assert forall i :: 0 <= i < |os| ==> os[i] == Val(ws[i]);
        AllValues(os, ws);
      }
    }
  }

  lemma {:induction false} CastFields(engine: Engine, vs: seq<Value>, from: seq<Type>, to: seq<Type>, i: nat)
    requires i <= |vs| == |from| == |to|
    requires forall j :: 0 <= j < |vs| ==> HasType(vs[j], from[j])
    requires ConvertFields(vs, from, to, i).Converted?
    ensures forall j :: i <= j < |vs| ==>
              CastValue(engine, vs[j], from[j], to[j]) == Val(ConvertFields(vs, from, to, i).value.fields[j - i])
    decreases vs, |vs| - i
  {
    if i < |vs| {
      CastExtendsConversion(engine, vs[i], from[i], to[i]);
      CastFields(engine, vs, from, to, i + 1);
    }
  }

  lemma {:induction false} AllValues(os: seq<Outcome>, vs: seq<Value>)
    requires |os| == |vs| && forall i :: 0 <= i < |os| ==> os[i] == Val(vs[i])
    ensures ValuesOf(os) == Some(vs)
  {
    assert !AnyErr(os);
    var ws := ValuesOf(os).value;
    assert forall i :: 0 <= i < |os| ==> Val(ws[i]) == Val(vs[i]);
    assert ws == vs;
  }

  // ----- Membership in an array is the disjunction of comparisons.

  lemma {:induction false} MembershipIsDisjunction(x: Value, items: seq<Value>)
    ensures InElements(x, items) == InList(x, items)
  {
    if items != [] {
      MembershipIsDisjunction(x, items[1..]);
      var rest := items[1..];
      if i :| 0 <= i < |rest| && Equal3(x, rest[i]) == True { assert Equal3(x, items[i + 1]) == True; }
      if i :| 0 <= i < |rest| && Equal3(x, rest[i]) == Maybe { assert Equal3(x, items[i + 1]) == Maybe; }
      assert forall i :: 1 <= i < |items| ==> items[i] == rest[i - 1];
    }
  }

  /** Values other than NULLs, rows and arrays compare as they are; rows and arrays of one length by
      their parts: equal if all are, different if some pair is, else not known. */
  lemma {:induction false} ComparedByParts(v: Value, w: Value)
    ensures v.NullV? || w.NullV? ==> Equal3(v, w) == Maybe
    ensures !(v.NullV? || w.NullV? || v.RowV? || v.ArrayV?) ==> Equal3(v, w) == if v == w then True else False
    ensures v.RowV? && w.RowV? && |v.fields| == |w.fields| ==>
              && (Equal3(v, w) == True <==> forall i :: 0 <= i < |v.fields| ==> Equal3(v.fields[i], w.fields[i]) == True)
              && (Equal3(v, w) == False <==> exists i :: 0 <= i < |v.fields| && Equal3(v.fields[i], w.fields[i]) == False)
    ensures v.ArrayV? && w.ArrayV? && |v.elements| == |w.elements| ==>
              && (Equal3(v, w) == True <==> forall i :: 0 <= i < |v.elements| ==> Equal3(v.elements[i], w.elements[i]) == True)
              && (Equal3(v, w) == False <==> exists i :: 0 <= i < |v.elements| && Equal3(v.elements[i], w.elements[i]) == False)
  {
    if v.RowV? && w.RowV? && |v.fields| == |w.fields| { PartsCompared(v.fields, w.fields, 0); }
    if v.ArrayV? && w.ArrayV? && |v.elements| == |w.elements| { PartsCompared(v.elements, w.elements, 0); }
  }

  lemma {:induction false} PartsCompared(vs: seq<Value>, ws: seq<Value>, i: nat)
    requires i <= |vs| == |ws|
    ensures AllEqual3(vs, ws, i) == True <==> forall j :: i <= j < |vs| ==> Equal3(vs[j], ws[j]) == True
    ensures AllEqual3(vs, ws, i) == False <==> exists j :: i <= j < |vs| && Equal3(vs[j], ws[j]) == False
    decreases |vs| - i
  {
    if i < |vs| { PartsCompared(vs, ws, i + 1); }
  }

  // ----- The two forms of IN agree.

  ghost predicate TypedLiterals(literals: seq<Expr>) {
    forall i :: 0 <= i < |literals| ==> literals[i].Constant? && HasType(literals[i].value, literals[i].ty)
  }

  lemma {:induction false} ArrayElements(literals: seq<Expr>, ty: Type)
    requires TypedLiterals(literals) && LiteralArray(literals, ty).Some?
    ensures |LiteralArray(literals, ty).value| == |literals|
    ensures forall i :: 0 <= i < |literals| ==>
              TryConvert(literals[i].value, literals[i].ty, ty) == Converted(LiteralArray(literals, ty).value[i])
  {
    if literals != [] {
      ArrayElements(literals[1..], ty);
      var es := LiteralArray(literals, ty).value;
      forall i | 0 <= i < |literals|
        ensures TryConvert(literals[i].value, literals[i].ty, ty) == Converted(es[i])
      {
        if i > 0 { assert literals[i] == literals[1..][i - 1]; }
      }
    }
  }

  lemma {:induction false} CoercedLiteral(engine: Engine, literal: Expr, ty: Type, env: Env)
    requires literal.Constant? && HasType(literal.value, literal.ty)
    requires TryConvert(literal.value, literal.ty, ty).Converted?
    ensures Eval(engine, CoerceOne(literal, ty), env) == Val(TryConvert(literal.value, literal.ty, ty).value)
  {
    if !Equivalent(literal.ty, ty) {
      CastExtendsConversion(engine, literal.value, literal.ty, ty);
      var os := EvalAll(engine, [literal], env);
      AllValues(os, [literal.value]);
      assert os == [Val(literal.value)];
      var cast := CastTo(ty, literal);
      assert Eval(engine, cast, env) == Combine(engine, Cast, ty, Types(cast.inputs), EvalAll(engine, cast.inputs, env));
    }
  }

  lemma {:induction false} ListedOutcome(engine: Engine, value: Expr, items: seq<Expr>, elements: seq<Value>, env: Env)
    requires |items| == |elements| > 0
    requires forall i :: 0 <= i < |items| ==> Eval(engine, items[i], env) == Val(elements[i])
    ensures Eval(engine, Special(Boolean, In, [value] + items), env) ==
            var x := Eval(engine, value, env); if x.Err? then Err else Val(TruthValue(InList(x.value, elements)))
  {
    var inputs := [value] + items;
    var x, os := Eval(engine, value, env), EvalAll(engine, inputs, env);
    assert os[0] == x;
    forall i | 1 <= i < |os| ensures os[i] == Val(elements[i - 1]) {
      assert inputs[i] == items[i - 1];
    }
    if x.Val? {
      AllValues(os, [x.value] + elements);
      assert ([x.value] + elements)[1..] == elements;
    }
    assert Eval(engine, Special(Boolean, In, inputs), env) == CombineStrict(engine, In, Boolean, Types(inputs), os);
  }

  lemma {:induction false} StoredOutcome(engine: Engine, value: Expr, elements: seq<Value>, ty: Type, env: Env)
    ensures Eval(engine, Special(Boolean, InArray, [value, Constant(ty, ArrayV(elements))]), env) ==
            var x := Eval(engine, value, env); if x.Err? then Err else Val(TruthValue(InElements(x.value, elements)))
  {
    var inputs := [value, Constant(ty, ArrayV(elements))];
    var x, os := Eval(engine, value, env), EvalAll(engine, inputs, env);
    assert os[0] == x && os[1] == Val(ArrayV(elements));
    if x.Val? { AllValues(os, [x.value, ArrayV(elements)]); }
    assert Eval(engine, Special(Boolean, InArray, inputs), env) ==
           CombineStrict(engine, InArray, Boolean, Types(inputs), os);
  }

  /** The list form and the array form over one checked value and equal elements. */
  lemma {:induction false} FormsAgree(engine: Engine, value: Expr, items: seq<Expr>, elements: seq<Value>, ty: Type, env: Env)
    requires |items| == |elements| > 0
    requires forall i :: 0 <= i < |items| ==> Eval(engine, items[i], env) == Val(elements[i])
    ensures Eval(engine, Special(Boolean, InArray, [value, Constant(ty, ArrayV(elements))]), env) ==
            Eval(engine, Special(Boolean, In, [value] + items), env)
  {
    ListedOutcome(engine, value, items, elements, env);
    StoredOutcome(engine, value, elements, ty, env);
    var x := Eval(engine, value, env);
    if x.Val? { MembershipIsDisjunction(x.value, elements); }
  }

  /** Under a coercer, IN over literals resolves exactly when its list form does, and then has
      the list form's outcome over every row, with NULLs and errors. */
  lemma {:induction false} ConstantInMatchesList(
      engine: Engine, superType: (Type, Type) -> Option<Type>, value: Expr, literals: seq<Expr>, env: Env)
    requires TypedLiterals(literals) && literals != []
    ensures var r, list := ResolveConstantIn(Some(superType), value, literals), ResolveIn(Some(superType), [value] + literals);
            && (r.Ok? <==> list.Ok?)
            && (r.Ok? ==> r.value.ty == list.value.ty && Eval(engine, r.value, env) == Eval(engine, list.value, env))
  {
    var common := CommonType(superType, value.ty, Types(literals));
    if common.Some? && !common.value.Unknown? && LiteralArray(literals, common.value).Some? {
      ListFormResolves(superType, value, literals, common.value);
      ArrayFormValid(value, literals, common.value);
      ArrayMatchesList(engine, value, literals, common.value, env);
    }
  }

  lemma {:induction false} ListFormResolves(superType: (Type, Type) -> Option<Type>, value: Expr, literals: seq<Expr>, ty: Type)
    requires literals != [] && CommonType(superType, value.ty, Types(literals)) == Some(ty)
    ensures ResolveIn(Some(superType), [value] + literals) == Ok(Special(Boolean, In, CoerceAll([value] + literals, ty)))
  {
    SameCommonType(value, literals);
    CoercedTypes(value, literals, ty);
  }

  lemma {:induction false} ArrayFormValid(value: Expr, literals: seq<Expr>, ty: Type)
    requires TypedLiterals(literals) && literals != [] && LiteralArray(literals, ty).Some?
    ensures ValidSpecial(Boolean, InArray,
              [CoerceOne(value, ty), Constant(Array(ty), ArrayV(LiteralArray(literals, ty).value))])
  {
    CoercedTypes(value, literals, ty);
    ArrayElements(literals, ty);
  }

  lemma {:induction false} ArrayMatchesList(engine: Engine, value: Expr, literals: seq<Expr>, ty: Type, env: Env)
    requires TypedLiterals(literals) && literals != [] && LiteralArray(literals, ty).Some?
    ensures var elements := LiteralArray(literals, ty).value;
            Eval(engine, Special(Boolean, InArray, [CoerceOne(value, ty), Constant(Array(ty), ArrayV(elements))]), env) ==
            Eval(engine, Special(Boolean, In, CoerceAll([value] + literals, ty)), env)
  {
    CoercedLiterals(engine, literals, ty, env);
    assert CoerceAll([value] + literals, ty) == [CoerceOne(value, ty)] + CoerceAll(literals, ty);
    FormsAgree(engine, CoerceOne(value, ty), CoerceAll(literals, ty), LiteralArray(literals, ty).value, Array(ty), env);
  }

  lemma {:induction false} CoercedLiterals(engine: Engine, literals: seq<Expr>, ty: Type, env: Env)
    requires TypedLiterals(literals) && literals != [] && LiteralArray(literals, ty).Some?
    ensures var elements, items := LiteralArray(literals, ty).value, CoerceAll(literals, ty);
            && |items| == |elements| > 0
            && forall i :: 0 <= i < |items| ==> Eval(engine, items[i], env) == Val(elements[i])
  {
    var elements, items := LiteralArray(literals, ty).value, CoerceAll(literals, ty);
    ArrayElements(literals, ty);
    forall i | 0 <= i < |items| ensures Eval(engine, items[i], env) == Val(elements[i]) {
      CoercedLiteral(engine, literals[i], ty, env);
    }
  }

  lemma {:induction false} SameCommonType(value: Expr, literals: seq<Expr>)
    ensures ([value] + literals)[0] == value && Types(([value] + literals)[1..]) == Types(literals)
  {
    assert ([value] + literals)[1..] == literals;
  }

  lemma {:induction false} CoercedTypes(value: Expr, literals: seq<Expr>, ty: Type)
    ensures var inputs := CoerceAll([value] + literals, ty);
            && Equivalent(Array(ty), Array(CoerceOne(value, ty).ty))
            && forall i :: 0 <= i < |inputs| ==> Equivalent(inputs[i].ty, CoerceOne(value, ty).ty)
  {
    var inputs := CoerceAll([value] + literals, ty);
    EquivalentRefl(ty);
    forall e: Expr ensures Equivalent(CoerceOne(e, ty).ty, ty) {}
    EquivalentSym(CoerceOne(value, ty).ty, ty);
    forall i | 0 <= i < |inputs| ensures Equivalent(inputs[i].ty, CoerceOne(value, ty).ty) {
      EquivalentTrans(inputs[i].ty, ty, CoerceOne(value, ty).ty);
    }
  }

  /** Without a coercer the list form takes only literals of the checked value's type, while the
      array form also takes those that widen to it; the two accept the same exactly when every
      literal already has the type, and then they agree. */
  lemma {:induction false} WithoutCoercer(engine: Engine, value: Expr, literals: seq<Expr>, env: Env)
    requires TypedLiterals(literals) && literals != [] && !value.ty.Unknown?
    requires LiteralArray(literals, value.ty).Some?
    ensures var r, list := ResolveConstantIn(None, value, literals), ResolveIn(None, [value] + literals);
            && r.Ok?
            && (list.Ok? <==> forall i :: 0 <= i < |literals| ==> Equivalent(literals[i].ty, value.ty))
            && (list.Ok? ==> Eval(engine, r.value, env) == Eval(engine, list.value, env))
  {
    var elements := LiteralArray(literals, value.ty).value;
    ArrayFormValid(value, literals, value.ty);
    EquivalentRefl(value.ty);
    ListFormAccepts(value, literals);
    if forall i :: 0 <= i < |literals| ==> Equivalent(literals[i].ty, value.ty) {
      SameTypeElements(engine, literals, value.ty, env);
      FormsAgree(engine, value, literals, elements, Array(value.ty), env);
    }
  }

  lemma {:induction false} ListFormAccepts(value: Expr, literals: seq<Expr>)
    requires literals != []
    ensures ResolveIn(None, [value] + literals) ==
            if forall i :: 0 <= i < |literals| ==> Equivalent(literals[i].ty, value.ty)
            then Ok(Special(Boolean, In, [value] + literals)) else Fail(BadForm)
  {
    var inputs := [value] + literals;
    assert forall i :: 0 <= i < |literals| ==> inputs[i + 1] == literals[i];
    assert forall i :: 1 <= i < |inputs| ==> inputs[i] == literals[i - 1];
  }

  lemma {:induction false} SameTypeElements(engine: Engine, literals: seq<Expr>, ty: Type, env: Env)
    requires TypedLiterals(literals) && LiteralArray(literals, ty).Some?
    requires forall i :: 0 <= i < |literals| ==> Equivalent(literals[i].ty, ty)
    ensures |LiteralArray(literals, ty).value| == |literals|
    ensures forall i :: 0 <= i < |literals| ==> Eval(engine, literals[i], env) == Val(LiteralArray(literals, ty).value[i])
  {
    ArrayElements(literals, ty);
  }

  /** Such a list: a BIGINT column against INTEGER literals. */
  lemma {:induction false} WithoutCoercerWidens(n: int, m: int)
    requires InRange(KInteger, n) && InRange(KInteger, m)
    ensures var value, literals := InputRef(Bigint, "x"), [Constant(Integer, IntV(KInteger, n)), Constant(Integer, IntV(KInteger, m))];
            ResolveConstantIn(None, value, literals).Ok? && ResolveIn(None, [value] + literals).Fail?
  {
    var literals := [Constant(Integer, IntV(KInteger, n)), Constant(Integer, IntV(KInteger, m))];
    assert LiteralArray(literals, Bigint).Some? by { WidenedArray(n, m); }
    var inputs := [InputRef(Bigint, "x")] + literals;
    assert inputs[1].ty == Integer;
  }

  lemma {:induction false} WidenedArray(n: int, m: int)
    requires InRange(KInteger, n) && InRange(KInteger, m)
    ensures LiteralArray([Constant(Integer, IntV(KInteger, n)), Constant(Integer, IntV(KInteger, m))], Bigint).Some?
  {
    var first, second := Constant(Integer, IntV(KInteger, n)), Constant(Integer, IntV(KInteger, m));
    assert LiteralArray([second], Bigint).Some? by {
      IntegerConversion(second.value, Integer, Bigint);
      assert [second][1..] == [];
    }
    IntegerConversion(first.value, Integer, Bigint);
    assert [first, second][1..] == [second];
  }

  // ----- Coercing a checked value that is a cast.

  predicate IntType(t: Type) {
    IntegerRank(t).Some?
  }

  lemma {:induction false} CastOutcome(engine: Engine, e: Expr, ty: Type, env: Env)
    ensures Eval(engine, CastTo(ty, e), env) ==
            var o := Eval(engine, e, env); if o.Err? then Err else CastValue(engine, o.value, e.ty, ty)
  {
    var o := Eval(engine, e, env);
    var cast := CastTo(ty, e);
    var os := EvalAll(engine, cast.inputs, env);
    assert os == [o];
    assert Eval(engine, cast, env) == CombineStrict(engine, Cast, ty, Types(cast.inputs), os);
    if o.Val? { AllValues(os, [o.value]); } else { assert os[0].Err?; }
  }

  /** A coerced operand of IN: cast to the type, what is under it if it is a cast. */
  lemma {:induction false} CoercedOutcomeIs(engine: Engine, e: Expr, ty: Type, env: Env)
    ensures Eval(engine, CoerceOne(e, ty), env) ==
            if Equivalent(e.ty, ty) then Eval(engine, e, env)
            else var o := Eval(engine, Peeled(e), env); if o.Err? then Err else CastValue(engine, o.value, Peeled(e).ty, ty)
  {
    CastOutcome(engine, Peeled(e), ty, env);
  }

  /** What casting an integer of one type to another gives. */
  function IntCast(from: Type, to: Type, n: int): Outcome {
    if from == to || InRange(KindOf(to), n) then Val(IntV(KindOf(to), n)) else Err
  }

  ghost predicate SameOverValue(engine: Engine, e: Expr, f: Expr, x: string, v: Value) {
    var env: Env := map[x := Val(v)];
    Eval(engine, e, env) == Eval(engine, f, env)
  }

  lemma {:induction false} PeeledOutcomes(engine: Engine, x: string, s: Type, a: Type, t: Type, n: int)
    requires IntType(s) && IntType(a) && IntType(t)
    ensures var inner := CastTo(a, InputRef(s, x));
            SameOverValue(engine, ApplyCoercion(inner, t), CastTo(t, inner), x, IntV(KindOf(s), n)) <==>
            IntCast(s, t, n) == if IntCast(s, a, n).Err? then Err else IntCast(a, t, n)
  {
    var inner := CastTo(a, InputRef(s, x));
    var env: Env := map[x := Val(IntV(KindOf(s), n))];
    CastOutcome(engine, InputRef(s, x), t, env);
    CastOutcome(engine, InputRef(s, x), a, env);
    CastOutcome(engine, inner, t, env);
  }

  lemma {:induction false} NarrowIsSmaller(a: Type, b: Type)
    requires IntType(a) && IntType(b) && IntegerRank(a).value < IntegerRank(b).value
    ensures Half(KindOf(a)) < Half(KindOf(b))
  {
    Pow2Monotone(Bits(KindOf(a)), Bits(KindOf(b)) - 1);
  }

  /** Coercing CAST(x AS a) to t casts x to t directly. Over an integer column of type s that is
      the cast of the cast, for every value of the column, exactly when the inner cast does not
      narrow or the outer one does not widen. */
  lemma {:induction false} PeelingExact(engine: Engine, x: string, s: Type, a: Type, t: Type)
    requires IntType(s) && IntType(a) && IntType(t)
    ensures var inner := CastTo(a, InputRef(s, x));
            (forall n :: InRange(KindOf(s), n) ==>
               SameOverValue(engine, ApplyCoercion(inner, t), CastTo(t, inner), x, IntV(KindOf(s), n))) <==>
            IntegerRank(s).value <= IntegerRank(a).value || IntegerRank(t).value <= IntegerRank(a).value
  {
    var inner := CastTo(a, InputRef(s, x));
    var faithful := IntegerRank(s).value <= IntegerRank(a).value || IntegerRank(t).value <= IntegerRank(a).value;
    if faithful {
      forall n | InRange(KindOf(s), n)
        ensures SameOverValue(engine, ApplyCoercion(inner, t), CastTo(t, inner), x, IntV(KindOf(s), n))
      {
        PeeledOutcomes(engine, x, s, a, t, n);
        WiderFits(s, a, t, n);
      }
    } else {
      var n := Half(KindOf(a));
      NarrowIsSmaller(a, s);
      NarrowIsSmaller(a, t);
      PeeledOutcomes(engine, x, s, a, t, n);
      assert InRange(KindOf(s), n) && !SameOverValue(engine, ApplyCoercion(inner, t), CastTo(t, inner), x, IntV(KindOf(s), n));
    }
  }

  lemma {:induction false} WiderFits(s: Type, a: Type, t: Type, n: int)
    requires IntType(s) && IntType(a) && IntType(t) && InRange(KindOf(s), n)
    requires IntegerRank(s).value <= IntegerRank(a).value || IntegerRank(t).value <= IntegerRank(a).value
    ensures IntCast(s, t, n) == if IntCast(s, a, n).Err? then Err else IntCast(a, t, n)
  {
    if IntegerRank(s).value <= IntegerRank(a).value {
      WideningFits(s, a, n);
    } else if InRange(KindOf(t), n) {
      WideningFits(t, a, n);
    }
  }

  /** So CAST(x AS TINYINT) IN (300, 400) is true of 300, a value the cast itself rejects. */
  lemma {:induction false} InPeelsCasts(engine: Engine, superType: (Type, Type) -> Option<Type>, env: Env)
    requires superType(Tinyint, Integer) == Some(Integer) && superType(Integer, Integer) == Some(Integer)
    requires env == map["x" := Val(IntV(KInteger, 300))]
    ensures var value := CastTo(Tinyint, InputRef(Integer, "x"));
            var r := ResolveConstantIn(Some(superType), value, IntegerLiterals([300, 400]));
            Eval(engine, value, env) == Err && r.Ok? && Eval(engine, r.value, env) == Val(BoolV(true))
  {
    PeeledForm(superType);
    CastRejects(engine, env);
    CastOutcome(engine, InputRef(Integer, "x"), Integer, env);
    StoredOutcome(engine, CastTo(Integer, InputRef(Integer, "x")), IntegerValues([300, 400]), Array(Integer), env);
    assert Equal3(IntV(KInteger, 300), IntegerValues([300, 400])[0]) == True;
  }

  /** Coercing a parameter and binding it to a cast do not commute: over a parameter p of type TINYINT
      bound to CAST(x AS TINYINT), p IN (300, 400) fails for an x of 300; resolved over the
      argument itself it is true. */
  lemma {:induction false} CoercedInDoesNotCommute(engine: Engine, superType: (Type, Type) -> Option<Type>, env: Env)
    requires superType(Tinyint, Integer) == Some(Integer) && superType(Integer, Integer) == Some(Integer)
    requires env == map["x" := Val(IntV(KInteger, 300))]
    ensures var argument := CastTo(Tinyint, InputRef(Integer, "x"));
            var overParameter := ResolveConstantIn(Some(superType), InputRef(Tinyint, "p"), IntegerLiterals([300, 400]));
            var overArgument := ResolveConstantIn(Some(superType), argument, IntegerLiterals([300, 400]));
            && overParameter.Ok? && Eval(engine, Subst(overParameter.value, map["p" := argument]), env) == Err
            && overArgument.Ok? && Eval(engine, overArgument.value, env) == Val(BoolV(true))
  {
    InPeelsCasts(engine, superType, env);
    ParameterForm(superType);
    SubstitutedFails(engine, Constant(Array(Integer), ArrayV(IntegerValues([300, 400]))), env);
  }

  lemma {:induction false} ParameterForm(superType: (Type, Type) -> Option<Type>)
    requires superType(Tinyint, Integer) == Some(Integer) && superType(Integer, Integer) == Some(Integer)
    ensures ResolveConstantIn(Some(superType), InputRef(Tinyint, "p"), IntegerLiterals([300, 400])) ==
            Ok(Special(Boolean, InArray, [CastTo(Integer, InputRef(Tinyint, "p")),
              Constant(Array(Integer), ArrayV(IntegerValues([300, 400])))]))
  {
    CommonInteger(superType, IntegerLiterals([300, 400]));
    IntegerElements([300, 400]);
    assert IntegerValues([300, 400]) != [];
  }

  lemma {:induction false} SubstitutedFails(engine: Engine, stored: Expr, env: Env)
    requires stored.Constant? && env == map["x" := Val(IntV(KInteger, 300))]
    ensures var r := Special(Boolean, InArray, [CastTo(Integer, InputRef(Tinyint, "p")), stored]);
            Eval(engine, Subst(r, map["p" := CastTo(Tinyint, InputRef(Integer, "x"))]), env) == Err
  {
    var argument := CastTo(Tinyint, InputRef(Integer, "x"));
    var s := map["p" := argument];
    var r := Special(Boolean, InArray, [CastTo(Integer, InputRef(Tinyint, "p")), stored]);
    CastRejects(engine, env);
    var p := InputRef(Tinyint, "p");
    assert Subst(p, s) == argument;
    var cast := Subst(CastTo(Integer, p), s);
    assert cast.inputs == SubstAll([p], s) && SubstAll([p], s) == [argument];
    assert EvalAll(engine, cast.inputs, env)[0].Err?;
    assert Eval(engine, cast, env).Err?;
    var t := Subst(r, s);
    assert t.inputs == SubstAll(r.inputs, s);
    assert EvalAll(engine, t.inputs, env)[0].Err?;
  }

  lemma {:induction false} CastRejects(engine: Engine, env: Env)
    requires env == map["x" := Val(IntV(KInteger, 300))]
    ensures Eval(engine, CastTo(Tinyint, InputRef(Integer, "x")), env) == Err
  {
    CastOutcome(engine, InputRef(Integer, "x"), Tinyint, env);
    assert Half(KTinyint) == 128;
  }

  function IntegerLiterals(ns: seq<int>): (es: seq<Expr>)
    ensures |es| == |ns| && forall i :: 0 <= i < |es| ==> es[i].Constant? && es[i].ty == Integer
  {
    if ns == [] then [] else [Constant(Integer, IntV(KInteger, ns[0]))] + IntegerLiterals(ns[1..])
  }

  function IntegerValues(ns: seq<int>): seq<Value> {
    if ns == [] then [] else [IntV(KInteger, ns[0])] + IntegerValues(ns[1..])
  }

  lemma {:induction false} PeeledForm(superType: (Type, Type) -> Option<Type>)
    requires superType(Tinyint, Integer) == Some(Integer) && superType(Integer, Integer) == Some(Integer)
    ensures ResolveConstantIn(Some(superType), CastTo(Tinyint, InputRef(Integer, "x")), IntegerLiterals([300, 400])) ==
            Ok(Special(Boolean, InArray, [CastTo(Integer, InputRef(Integer, "x")),
              Constant(Array(Integer), ArrayV(IntegerValues([300, 400])))]))
  {
    CommonInteger(superType, IntegerLiterals([300, 400]));
    IntegerElements([300, 400]);
    assert IntegerValues([300, 400]) != [];
  }

  lemma {:induction false} IntegerElements(ns: seq<int>)
    ensures LiteralArray(IntegerLiterals(ns), Integer) == Some(IntegerValues(ns))
  {
    if ns != [] {
      IntegerElements(ns[1..]);
      assert IntegerLiterals(ns)[1..] == IntegerLiterals(ns[1..]);
    }
  }

  lemma {:induction false} CommonInteger(superType: (Type, Type) -> Option<Type>, literals: seq<Expr>)
    requires superType(Tinyint, Integer) == Some(Integer) && superType(Integer, Integer) == Some(Integer)
    requires |literals| == 2 && literals[0].ty == literals[1].ty == Integer
    ensures CommonType(superType, Tinyint, Types(literals)) == Some(Integer)
  {
    var ts := Types(literals);
    assert ts[1..][1..] == [];
    assert CommonType(superType, Integer, ts[1..]) == Some(Integer);
  }
}
