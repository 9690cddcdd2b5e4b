/** The type IN compares in: the least one above all operands, so that integers compare as numbers. */
module CommonTypes {
  import opened Wrappers
  import opened Values
  import opened Exprs
  import opened Resolver
  import opened Inlining
  import opened InPredicate
  import opened ResolvedTypes

  // ----- The fold finds the least upper bound.

  ghost predicate Above(leq: (Type, Type) -> bool, t: Type, ts: seq<Type>, w: Type) {
    leq(t, w) && forall i :: 0 <= i < |ts| ==> leq(ts[i], w)
  }

  /** The super type of two is the least of those above both in a widening order. */
  ghost predicate Widening(superType: (Type, Type) -> Option<Type>, leq: (Type, Type) -> bool) {
    && (forall a :: leq(a, a))
    && (forall a, b, c :: leq(a, b) && leq(b, c) ==> leq(a, c))
    && (forall a, b :: superType(a, b).Some? ==> leq(a, superType(a, b).value) && leq(b, superType(a, b).value))
    && (forall a, b, w :: leq(a, w) && leq(b, w) ==> superType(a, b).Some? && leq(superType(a, b).value, w))
  }

  /** The common type is above every input's and below every other type that is; there is none exactly
      when nothing is above all. */
  lemma {:induction false} CommonTypeIsLeast(
      superType: (Type, Type) -> Option<Type>, leq: (Type, Type) -> bool, t: Type, ts: seq<Type>)
    requires Widening(superType, leq)
    ensures var u := CommonType(superType, t, ts);
            && (u.Some? ==> Above(leq, t, ts, u.value))
            && (forall w :: Above(leq, t, ts, w) ==> u.Some? && leq(u.value, w))
    decreases |ts|
  {
    if ts != [] {
      var both := superType(t, ts[0]);
      assert forall i :: 1 <= i < |ts| ==> ts[i] == ts[1..][i - 1];
      if both.Some? {
        CommonTypeIsLeast(superType, leq, both.value, ts[1..]);
        forall w | Above(leq, t, ts, w) ensures Above(leq, both.value, ts[1..], w) {}
      }
    }
  }

  /** Integers widen to the wider of two. */
  ghost predicate WidensIntegers(superType: (Type, Type) -> Option<Type>) {
    forall a, b :: IntType(a) && IntType(b) ==>
      superType(a, b) == Some(if IntegerRank(a).value <= IntegerRank(b).value then b else a)
  }

  /** Of integer types, it is one of them, of the greatest rank. */
  lemma {:induction false} WidestInteger(superType: (Type, Type) -> Option<Type>, t: Type, ts: seq<Type>)
    requires WidensIntegers(superType) && IntType(t) && forall i :: 0 <= i < |ts| ==> IntType(ts[i])
    ensures var u := CommonType(superType, t, ts);
            && u.Some? && IntType(u.value) && (u.value == t || u.value in ts)
            && IntegerRank(t).value <= IntegerRank(u.value).value
            && forall i :: 0 <= i < |ts| ==> IntegerRank(ts[i]).value <= IntegerRank(u.value).value
    decreases |ts|
  {
    if ts != [] {
      assert forall i :: 1 <= i < |ts| ==> ts[i] == ts[1..][i - 1];
      WidestInteger(superType, superType(t, ts[0]).value, ts[1..]);
    }
  }

  // ----- IN over integers compares numbers.

  /** An integer operand that has a value; if it is a cast, of an integer. */
  ghost predicate IntegerOperand(engine: Engine, t: Expr, env: Env) {
    && IntType(t.ty) && Eval(engine, t, env).Val? && TypedExpr(engine, t, env)
    && (IsCast(t) ==> IntType(Peeled(t).ty) && TypedExpr(engine, Peeled(t), env))
  }

  function NumberOf(o: Outcome): Option<int> {
    if o.Val? && o.value.IntV? then Some(o.value.n) else None
  }

  lemma {:induction false} TypedIntegerCast(engine: Engine, v: Value, from: Type, to: Type)
    requires IntType(from) && IntType(to) && HasType(v, from)
    ensures CastValue(engine, v, from, to) ==
            if v.NullV? then Val(NullV(KindOf(to)))
            else if InRange(KindOf(to), v.n) then Val(IntV(KindOf(to), v.n)) else Err
  {
  }

  /** Coercing an integer operand to a type as wide keeps its number, or its NULL. */
  lemma {:induction false} CoercedNumber(engine: Engine, t: Expr, ty: Type, env: Env)
    requires IntegerOperand(engine, t, env) && IntType(ty) && IntegerRank(t.ty).value <= IntegerRank(ty).value
    ensures var o := Eval(engine, CoerceOne(t, ty), env);
            && o == Val(match NumberOf(Eval(engine, t, env)) case Some(n) => IntV(KindOf(ty), n) case None => NullV(KindOf(ty)))
  {
    CoercedOutcomeIs(engine, t, ty, env);
    WidenedNumber(engine, Eval(engine, t, env).value, t.ty, ty);
    if IsCast(t) {
      assert t == CastTo(t.ty, Peeled(t));
      CastOutcome(engine, Peeled(t), t.ty, env);
      PeeledNumber(engine, Eval(engine, Peeled(t), env).value, Peeled(t).ty, t.ty, ty);
    }
  }

  lemma {:induction false} WidenedNumber(engine: Engine, v: Value, from: Type, to: Type)
    requires IntType(from) && IntType(to) && HasType(v, from) && IntegerRank(from).value <= IntegerRank(to).value
    ensures CastValue(engine, v, from, to) == Val(if v.IntV? then IntV(KindOf(to), v.n) else NullV(KindOf(to)))
  {
    TypedIntegerCast(engine, v, from, to);
    if v.IntV? { WideningFits(from, to, v.n); }
  }

  /** What is under a cast that succeeds has its number. */
  lemma {:induction false} PeeledNumber(engine: Engine, v: Value, under: Type, from: Type, to: Type)
    requires IntType(under) && IntType(from) && IntType(to) && HasType(v, under)
    requires IntegerRank(from).value <= IntegerRank(to).value && CastValue(engine, v, under, from).Val?
    ensures CastValue(engine, v, under, to) == CastValue(engine, CastValue(engine, v, under, from).value, from, to)
  {
    TypedIntegerCast(engine, v, under, from);
    TypedIntegerCast(engine, v, under, to);
    var w := CastValue(engine, v, under, from).value;
    if v.IntV? {
      assert HasType(w, from) && w.n == v.n;
      WideningFits(from, to, v.n);
      TypedIntegerCast(engine, w, from, to);
    }
  }

  /** True if an item is the number, else NULL if something is not known, else false. */
  ghost function AmongNumbers(x: Option<int>, items: seq<Option<int>>): Value {
    if x.Some? && x in items then BoolV(true)
    else if x.None? || None in items then NullV(KBoolean)
    else BoolV(false)
  }

  function Numbers(engine: Engine, ts: seq<Expr>, env: Env): (ns: seq<Option<int>>)
    ensures |ns| == |ts| && forall i :: 0 <= i < |ts| ==> ns[i] == NumberOf(Eval(engine, ts[i], env))
  {
    seq(|ts|, i requires 0 <= i < |ts| => NumberOf(Eval(engine, ts[i], env)))
  }

  function Stored(kind: Kind, n: Option<int>): Value {
    match n case Some(k) => IntV(kind, k) case None => NullV(kind)
  }

  lemma {:induction false} ListedNumbers(kind: Kind, x: Option<int>, items: seq<Option<int>>, vs: seq<Value>)
    requires items != [] && |vs| == |items| && forall i :: 0 <= i < |items| ==> vs[i] == Stored(kind, items[i])
    ensures TruthValue(InList(Stored(kind, x), vs)) == AmongNumbers(x, items)
  {
    MembershipIsDisjunction(Stored(kind, x), vs);
    assert Equal3(Stored(kind, x), vs[0]) == if x.None? || items[0].None? then Maybe else if x == items[0] then True else False;
    forall i | 0 <= i < |items|
      ensures Equal3(Stored(kind, x), vs[i]) == if x.None? || items[i].None? then Maybe else if x == items[i] then True else False
    {
    }
    if x in items {
      var i :| 0 <= i < |items| && items[i] == x;
      assert x.Some? ==> Equal3(Stored(kind, x), vs[i]) == True;
    }
    if None in items {
      var i :| 0 <= i < |items| && items[i] == None;
      assert Equal3(Stored(kind, x), vs[i]) == Maybe;
    }
  }

  /** Over integer operands of any widths, IN resolves, does not fail, and compares their numbers. */
  lemma {:induction false} InComparesNumbers(engine: Engine, superType: (Type, Type) -> Option<Type>, ts: seq<Expr>, env: Env)
    requires |ts| >= 2 && WidensIntegers(superType) && forall i :: 0 <= i < |ts| ==> IntegerOperand(engine, ts[i], env)
    ensures var r, ns := ResolveIn(Some(superType), ts), Numbers(engine, ts, env);
            r.Ok? && Eval(engine, r.value, env) == Val(AmongNumbers(ns[0], ns[1..]))
  {
    var types := Types(ts[1..]);
    WidestInteger(superType, ts[0].ty, types);
    var ty := CommonType(superType, ts[0].ty, types).value;
    assert [ts[0]] + ts[1..] == ts;
    ListFormResolves(superType, ts[0], ts[1..], ty);
    forall i | 0 <= i < |ts| ensures Eval(engine, CoerceOne(ts[i], ty), env) == Val(Stored(KindOf(ty), Numbers(engine, ts, env)[i])) {
      assert i > 0 ==> types[i - 1] == ts[i].ty;
      CoercedNumber(engine, ts[i], ty, env);
    }
    CoercedNumbersListed(engine, ts, ty, env);
  }

  lemma {:induction false} CoercedNumbersListed(engine: Engine, ts: seq<Expr>, ty: Type, env: Env)
    requires |ts| >= 2
    requires forall i :: 0 <= i < |ts| ==>
               Eval(engine, CoerceOne(ts[i], ty), env) == Val(Stored(KindOf(ty), Numbers(engine, ts, env)[i]))
    ensures var ns := Numbers(engine, ts, env);
            Eval(engine, Special(Boolean, In, CoerceAll(ts, ty)), env) == Val(AmongNumbers(ns[0], ns[1..]))
  {
    var ns, us := Numbers(engine, ts, env), CoerceAll(ts, ty);
    var vs := seq(|ts| - 1, i requires 0 <= i < |ts| - 1 => Stored(KindOf(ty), ns[i + 1]));
    assert us == [us[0]] + us[1..];
    ListedOutcome(engine, us[0], us[1..], vs, env);
    ListedNumbers(KindOf(ty), ns[0], ns[1..], vs);
  }

  /** So it does over integer literals, in whichever form it resolves to. */
  lemma {:induction false} ConstantInComparesNumbers(
      engine: Engine, superType: (Type, Type) -> Option<Type>, value: Expr, literals: seq<Expr>, env: Env)
    requires WidensIntegers(superType) && IntegerOperand(engine, value, env)
    requires literals != [] && TypedLiterals(literals) && forall i :: 0 <= i < |literals| ==> IntType(literals[i].ty)
    ensures var r := ResolveConstantIn(Some(superType), value, literals);
            r.Ok? && Eval(engine, r.value, env) == Val(AmongNumbers(NumberOf(Eval(engine, value, env)), Numbers(engine, literals, env)))
  {
    var ts := [value] + literals;
    InComparesNumbers(engine, superType, ts, env);
    assert Numbers(engine, ts, env)[1..] == Numbers(engine, literals, env);
    ConstantInMatchesList(engine, superType, value, literals, env);
  }
}
