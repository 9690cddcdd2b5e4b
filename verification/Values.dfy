/** Types, variants, and the value-preserving constant conversion of ConstantExpr. */
module Values {
  import opened Wrappers

  /** The kinds a variant carries. DATE is a logical type of kind INTEGER. */
  datatype Kind =
    | KUnknown | KBoolean | KTinyint | KSmallint | KInteger | KBigint
    | KDouble | KVarchar | KRow | KArray

  datatype Type =
    | Unknown | Boolean | Tinyint | Smallint | Integer | Bigint | Date | Double | Varchar
    | Row(names: seq<string>, fields: seq<Type>)
    | Array(element: Type)

  function KindOf(t: Type): Kind {
    match t
    case Unknown => KUnknown
    case Boolean => KBoolean
    case Tinyint => KTinyint
    case Smallint => KSmallint
    case Integer => KInteger
    case Bigint => KBigint
    case Date => KInteger
    case Double => KDouble
    case Varchar => KVarchar
    case Row(_, _) => KRow
    case Array(_) => KArray
  }

  /** Type equality up to the names of row fields. */
  predicate Equivalent(a: Type, b: Type) {
    match (a, b)
    case (Row(_, fs), Row(_, gs)) =>
      |fs| == |gs| && forall i :: 0 <= i < |fs| ==> Equivalent(fs[i], gs[i])
    case (Array(x), Array(y)) => Equivalent(x, y)
    case _ => a == b
  }

  /** A variant. A NULL remembers a kind, an integer the width it is stored in. */
  datatype Value =
    | NullV(kind: Kind)
    | BoolV(b: bool)
    | IntV(width: Kind, n: int)
    | RealV(r: real)
    | StrV(s: string)
    | RowV(fields: seq<Value>)
    | ArrayV(elements: seq<Value>)

  function Bits(k: Kind): (bits: nat)
    ensures bits > 0
  {
    match k
    case KTinyint => 8
    case KSmallint => 16
    case KInteger => 32
    case _ => 64
  }

  function Pow2(n: nat): (p: nat)
    ensures p > 0
  {
    if n == 0 then 1 else 2 * Pow2(n - 1)
  }

  /** Half the number of values an integer of the kind's width takes. */
  function Half(k: Kind): (h: int)
    ensures h > 0
  {
    Pow2(Bits(k) - 1)
  }

  /** The values a two's complement integer of the kind's width holds. */
  predicate InRange(k: Kind, n: int) {
    -Half(k) <= n < Half(k)
  }

  /** static_cast of an integer to the kind's width: the residue in the signed range. */
  function Truncate(k: Kind, n: int): int {
    (n + Half(k)) % (2 * Half(k)) - Half(k)
  }

  predicate IsIntKind(k: Kind) {
    k == KTinyint || k == KSmallint || k == KInteger || k == KBigint
  }

  /** The variant is a value of the type. */
  predicate HasType(v: Value, t: Type) {
    match v
    case NullV(k) => k == KindOf(t)
    case BoolV(_) => t == Boolean
    case IntV(k, n) => IsIntKind(k) && k == KindOf(t) && InRange(k, n)
    case RealV(_) => t == Double
    case StrV(_) => t == Varchar
    case RowV(fs) =>
      t.Row? && |fs| == |t.fields| && forall i :: 0 <= i < |fs| ==> HasType(fs[i], t.fields[i])
    case ArrayV(es) => t.Array? && forall i :: 0 <= i < |es| ==> HasType(es[i], t.element)
  }

  /** What a variant denotes once storage widths and NULL kinds are forgotten. */
  datatype Meaning =
    | MNull | MBool(b: bool) | MInt(n: int) | MReal(r: real) | MStr(s: string)
    | MRow(fields: seq<Meaning>) | MArray(elements: seq<Meaning>)

  function Denote(v: Value): Meaning {
    match v
    case NullV(_) => MNull
    case BoolV(b) => MBool(b)
    case IntV(_, n) => MInt(n)
    case RealV(r) => MReal(r)
    case StrV(s) => MStr(s)
    case RowV(fs) => MRow(seq(|fs|, i requires 0 <= i < |fs| => Denote(fs[i])))
    case ArrayV(es) => MArray(seq(|es|, i requires 0 <= i < |es| => Denote(es[i])))
  }

  function IntegerRank(t: Type): Option<nat> {
    match t
    case Tinyint => Some(0)
    case Smallint => Some(1)
    case Integer => Some(2)
    case Bigint => Some(3)
    case _ => None
  }

  /** Unreachable marks the branches the source declares impossible. */
  datatype Conversion = Converted(value: Value) | NotLossless | Unreachable

  function TryConvert(v: Value, from: Type, to: Type): Conversion
    decreases v
  {
    if Equivalent(from, to) then Converted(v)
    else if v.NullV? then Converted(NullV(KindOf(to)))
    else
      var fromRank, toRank := IntegerRank(from), IntegerRank(to);
      if fromRank.Some? && toRank.Some? && fromRank.value <= toRank.value then
        if !v.IntV? || !IsIntKind(v.width) then Unreachable
        else
          match KindOf(to)
          case KSmallint => Converted(IntV(KSmallint, Truncate(KSmallint, v.n)))
          case KInteger => Converted(IntV(KInteger, Truncate(KInteger, v.n)))
          case KBigint => Converted(IntV(KBigint, v.n))
          case _ => Unreachable
      else if from.Row? && to.Row? && |from.fields| == |to.fields| then
        if !v.RowV? || |v.fields| != |from.fields| then Unreachable
        else ConvertFields(v.fields, from.fields, to.fields, 0)
      else NotLossless
  }

  /** Converts fields from position i on; the row they form, or the first field's failure. */
  function ConvertFields(vs: seq<Value>, from: seq<Type>, to: seq<Type>, i: nat): (c: Conversion)
    requires i <= |vs| == |from| == |to|
    ensures c.Converted? ==> c.value.RowV? && |c.value.fields| == |vs| - i
    decreases vs, |vs| - i
  {
    if i == |vs| then Converted(RowV([]))
    else
      var head := TryConvert(vs[i], from[i], to[i]);
      if !head.Converted? then head
      else
        var tail := ConvertFields(vs, from, to, i + 1);
        if !tail.Converted? then tail else Converted(RowV([head.value] + tail.value.fields))
  }

  // ----- Equivalence is an equivalence, and types a value the same way.

  lemma {:induction false} EquivalentRefl(t: Type)
    ensures Equivalent(t, t)
  {
    match t
    case Row(_, fs) => forall i | 0 <= i < |fs| ensures Equivalent(fs[i], fs[i]) { EquivalentRefl(fs[i]); }
    case Array(x) => EquivalentRefl(x);
    case _ =>
  }

  lemma {:induction false} EquivalentTrans(a: Type, b: Type, c: Type)
    requires Equivalent(a, b) && Equivalent(b, c)
    ensures Equivalent(a, c)
  {
    match a
    case Row(_, fs) =>
      forall i | 0 <= i < |fs| ensures Equivalent(fs[i], c.fields[i]) {
        EquivalentTrans(fs[i], b.fields[i], c.fields[i]);
      }
    case Array(x) => EquivalentTrans(x, b.element, c.element);
    case _ =>
  }

  lemma {:induction false} EquivalentSym(a: Type, b: Type)
    requires Equivalent(a, b)
    ensures Equivalent(b, a)
  {
    match a
    case Row(_, fs) =>
      forall i | 0 <= i < |fs| ensures Equivalent(b.fields[i], fs[i]) { EquivalentSym(fs[i], b.fields[i]); }
    case Array(x) => EquivalentSym(x, b.element);
    case _ =>
  }

  lemma {:induction false} EquivalentTyping(v: Value, a: Type, b: Type)
    requires Equivalent(a, b) && HasType(v, a)
    ensures HasType(v, b)
  {
    match v
    case RowV(fs) =>
      forall i | 0 <= i < |fs| ensures HasType(fs[i], b.fields[i]) {
        EquivalentTyping(fs[i], a.fields[i], b.fields[i]);
      }
    case ArrayV(es) =>
      forall i | 0 <= i < |es| ensures HasType(es[i], b.element) {
        EquivalentTyping(es[i], a.element, b.element);
      }
    case _ =>
  }

  // ----- Widening an integer never truncates.

  lemma {:induction false} Pow2Monotone(m: nat, n: nat)
    requires m <= n
    ensures Pow2(m) <= Pow2(n)
  {
    if m < n { Pow2Monotone(m, n - 1); }
  }

  lemma {:induction false} TruncateFits(k: Kind, n: int)
    requires InRange(k, n)
    ensures Truncate(k, n) == n
  {
    ModSmall(n + Half(k), 2 * Half(k));
  }

  lemma {:induction false} ModSmall(x: int, m: int)
    requires 0 <= x < m
    ensures x % m == x
  {
  }

  lemma {:induction false} WideningFits(from: Type, to: Type, n: int)
    requires IntegerRank(from).Some? && IntegerRank(to).Some?
    requires IntegerRank(from).value <= IntegerRank(to).value
    requires InRange(KindOf(from), n)
    ensures InRange(KindOf(to), n) && Truncate(KindOf(to), n) == n
  {
    Pow2Monotone(Bits(KindOf(from)) - 1, Bits(KindOf(to)) - 1);
    TruncateFits(KindOf(to), n);
  }

  // ----- The conversion is lossless, typed, total on typed values, and composes.

  /** Not unreachable; a converted value has the type and denotes what the original does. */
  predicate Lossless(v: Value, to: Type, c: Conversion) {
    !c.Unreachable? && (c.Converted? ==> HasType(c.value, to) && Denote(c.value) == Denote(v))
  }

  predicate LosslessFields(vs: seq<Value>, to: seq<Type>, i: nat, c: Conversion)
    requires i <= |vs| == |to|
  {
    && !c.Unreachable?
    && (c.Converted? ==>
          && c.value.RowV? && |c.value.fields| == |vs| - i
          && forall j :: i <= j < |vs| ==>
               HasType(c.value.fields[j - i], to[j]) && Denote(c.value.fields[j - i]) == Denote(vs[j]))
  }

  /** A typed constant never reaches a branch declared unreachable, and what is converted
      has the target type and denotes the same value. */
  lemma {:induction false} TryConvertSound(v: Value, from: Type, to: Type)
    requires HasType(v, from)
    ensures Lossless(v, to, TryConvert(v, from, to))
    decreases v, 1, 0
  {
    if Equivalent(from, to) {
      EquivalentTyping(v, from, to);
    } else if v.RowV? && to.Row? && |from.fields| == |to.fields| {
      ConvertFieldsSound(v.fields, from.fields, to.fields, 0);
      ConvertedRow(v, from, to);
    } else {
      ScalarConvertSound(v, from, to);
    }
  }

  lemma {:induction false} ScalarConvertSound(v: Value, from: Type, to: Type)
    requires HasType(v, from) && !Equivalent(from, to)
    requires !(v.RowV? && to.Row? && |from.fields| == |to.fields|)
    ensures Lossless(v, to, TryConvert(v, from, to))
  {
    if v.IntV? && IntegerRank(from).Some? && IntegerRank(to).Some? && IntegerRank(from).value <= IntegerRank(to).value {
      WideningFits(from, to, v.n);
    }
  }

  lemma {:induction false} ConvertedRow(v: Value, from: Type, to: Type)
    requires v.RowV? && HasType(v, from) && to.Row? && |from.fields| == |to.fields| && !Equivalent(from, to)
    requires LosslessFields(v.fields, to.fields, 0, ConvertFields(v.fields, from.fields, to.fields, 0))
    ensures Lossless(v, to, TryConvert(v, from, to))
  {
    var c := TryConvert(v, from, to);
    assert c == ConvertFields(v.fields, from.fields, to.fields, 0);
    if c.Converted? { assert Denote(c.value).fields == Denote(v).fields; }
  }

  lemma {:induction false} ConvertFieldsSound(vs: seq<Value>, from: seq<Type>, to: seq<Type>, i: nat)
    requires i <= |vs| == |from| == |to|
    requires forall j :: 0 <= j < |vs| ==> HasType(vs[j], from[j])
    ensures LosslessFields(vs, to, i, ConvertFields(vs, from, to, i))
    decreases vs, 0, |vs| - i
  {
    if i < |vs| {
      TryConvertSound(vs[i], from[i], to[i]);
      ConvertFieldsSound(vs, from, to, i + 1);
      var head, tail := TryConvert(vs[i], from[i], to[i]), ConvertFields(vs, from, to, i + 1);
      if head.Converted? && tail.Converted? {
        assert ConvertFields(vs, from, to, i).value.fields == [head.value] + tail.value.fields;
      }
    }
  }

  /** A row converts field by field, also between equivalent types. */
  lemma {:induction false} RowConversion(v: Value, a: Type, b: Type)
    requires v.RowV? && HasType(v, a)
    ensures TryConvert(v, a, b) ==
            if b.Row? && |a.fields| == |b.fields| then ConvertFields(v.fields, a.fields, b.fields, 0) else NotLossless
  {
    if Equivalent(a, b) { EquivalentFields(v.fields, a.fields, b.fields, 0); }
  }

  lemma {:induction false} EquivalentFields(vs: seq<Value>, from: seq<Type>, to: seq<Type>, i: nat)
    requires i <= |vs| == |from| == |to|
    requires forall j :: 0 <= j < |vs| ==> Equivalent(from[j], to[j])
    ensures ConvertFields(vs, from, to, i) == Converted(RowV(vs[i..]))
    decreases |vs| - i
  {
    if i < |vs| {
      EquivalentFields(vs, from, to, i + 1);
      assert vs[i..] == [vs[i]] + vs[i + 1..];
    }
  }

  lemma {:induction false} NullConversion(v: Value, a: Type, b: Type)
    requires v.NullV? && HasType(v, a)
    ensures TryConvert(v, a, b) == Converted(NullV(KindOf(b))) && HasType(NullV(KindOf(b)), b)
  {
    if Equivalent(a, b) { EquivalentTyping(v, a, b); }
  }

  /** An integer converts exactly to the integer types at least as wide, keeping its number. */
  lemma {:induction false} IntegerConversion(v: Value, a: Type, b: Type)
    requires v.IntV? && HasType(v, a) && IntegerRank(a).Some?
    ensures TryConvert(v, a, b) ==
            if IntegerRank(b).Some? && IntegerRank(a).value <= IntegerRank(b).value
            then Converted(IntV(KindOf(b), v.n)) else NotLossless
  {
    if IntegerRank(b).Some? && IntegerRank(a).value <= IntegerRank(b).value {
      WidenedInteger(v, a, b);
      WideningFits(a, b, v.n);
    }
  }

  lemma {:induction false} WidenedInteger(v: Value, a: Type, b: Type)
    requires v.IntV? && HasType(v, a) && IntegerRank(a).Some? && IntegerRank(b).Some?
    requires IntegerRank(a).value <= IntegerRank(b).value
    ensures TryConvert(v, a, b) == Converted(IntV(KindOf(b), if a == b || b == Bigint then v.n else Truncate(KindOf(b), v.n)))
  {
  }

  /** Which values convert unchanged: those of an equivalent type, NULLs, integers to a type as wide,
      and rows all of whose fields do. */
  predicate Convertible(v: Value, a: Type, b: Type)
    decreases v
  {
    || Equivalent(a, b) || v.NullV?
    || (v.IntV? && IntegerRank(a).Some? && IntegerRank(b).Some? && IntegerRank(a).value <= IntegerRank(b).value)
    || (v.RowV? && a.Row? && b.Row? && |v.fields| == |a.fields| == |b.fields|
        && forall i :: 0 <= i < |v.fields| ==> Convertible(v.fields[i], a.fields[i], b.fields[i]))
  }

  /** A typed constant converts exactly if it is convertible. */
  lemma {:induction false} ConvertsExactly(v: Value, a: Type, b: Type)
    requires HasType(v, a)
    ensures TryConvert(v, a, b).Converted? <==> Convertible(v, a, b)
    decreases v, 1, 0
  {
    if v.IntV? && IntegerRank(a).Some? {
      IntegerConversion(v, a, b);
    } else if v.RowV? && b.Row? && |a.fields| == |b.fields| {
      RowConversion(v, a, b);
      FieldsConvertExactly(v.fields, a.fields, b.fields, 0);
      if Equivalent(a, b) { EquivalentFields(v.fields, a.fields, b.fields, 0); }
    }
  }

  lemma {:induction false} FieldsConvertExactly(vs: seq<Value>, a: seq<Type>, b: seq<Type>, i: nat)
    requires i <= |vs| == |a| == |b| && forall j :: 0 <= j < |vs| ==> HasType(vs[j], a[j])
    ensures ConvertFields(vs, a, b, i).Converted? <==> forall j :: i <= j < |vs| ==> Convertible(vs[j], a[j], b[j])
    decreases vs, 0, |vs| - i
  {
    if i < |vs| {
      ConvertsExactly(vs[i], a[i], b[i]);
      FieldsConvertExactly(vs, a, b, i + 1);
    }
  }

  lemma {:induction false} ConvertFieldsCompose(
      vs: seq<Value>, ws: seq<Value>, a: seq<Type>, b: seq<Type>, c: seq<Type>, i: nat)
    requires i <= |vs| == |ws| == |a| == |b| == |c|
    requires forall j :: 0 <= j < |vs| ==> HasType(vs[j], a[j])
    requires ConvertFields(vs, a, b, i) == Converted(RowV(ws[i..]))
    requires ConvertFields(ws, b, c, i).Converted?
    ensures ConvertFields(vs, a, c, i) == ConvertFields(ws, b, c, i)
    decreases vs, 0, |vs| - i
  {
    if i < |vs| {
      assert ws[i..] == [ws[i]] + ws[i + 1..];
      var tail := ConvertFields(vs, a, b, i + 1);
      assert [TryConvert(vs[i], a[i], b[i]).value] + tail.value.fields == [ws[i]] + ws[i + 1..];
      assert TryConvert(vs[i], a[i], b[i]).value == ws[i] && tail.value.fields == ws[i + 1..] by {
        assert ([TryConvert(vs[i], a[i], b[i]).value] + tail.value.fields)[0] == ws[i];
        assert ([TryConvert(vs[i], a[i], b[i]).value] + tail.value.fields)[1..] == ws[i + 1..];
      }
      TryConvertComposes(vs[i], a[i], b[i], c[i]);
      ConvertFieldsCompose(vs, ws, a, b, c, i + 1);
    }
  }

  /** Converting in two steps gives the very variant that converting at once gives. */
  lemma {:induction false} TryConvertComposes(v: Value, a: Type, b: Type, c: Type)
    requires HasType(v, a)
    requires TryConvert(v, a, b).Converted?
    requires TryConvert(TryConvert(v, a, b).value, b, c).Converted?
    ensures TryConvert(v, a, c) == TryConvert(TryConvert(v, a, b).value, b, c)
    decreases v, 1, 0
  {
    var w := TryConvert(v, a, b).value;
    if v.NullV? {
      NullConversion(v, a, b);
      NullConversion(w, b, c);
      NullConversion(v, a, c);
    } else if v.RowV? {
      TryConvertSound(v, a, b);
      RowConversion(v, a, b);
      RowConversion(w, b, c);
      RowConversion(v, a, c);
      ConvertFieldsCompose(v.fields, w.fields, a.fields, b.fields, c.fields, 0);
    } else if IntegerRank(a).Some? {
      TryConvertSound(v, a, b);
      IntegerConversion(v, a, b);
      IntegerConversion(w, b, c);
      IntegerConversion(v, a, c);
    } else {
      assert Equivalent(a, b) && Equivalent(b, c);
      EquivalentTrans(a, b, c);
    }
  }

  function Prepend(done: seq<Value>, c: Conversion): (r: Conversion)
    requires c.Converted? ==> c.value.RowV?
  {
    if c.Converted? then Converted(RowV(done + c.value.fields)) else c
  }

  /** tryConvert as the source runs it: a loop over the fields of a row, one recursive call a field. */
  method ConvertConstant(v: Value, from: Type, to: Type) returns (c: Conversion)
    ensures c == TryConvert(v, from, to)
    decreases v
  {
    if Equivalent(from, to) { return Converted(v); }
    if v.NullV? { return Converted(NullV(KindOf(to))); }
    var fromRank, toRank := IntegerRank(from), IntegerRank(to);
    if fromRank.Some? && toRank.Some? && fromRank.value <= toRank.value {
      if !v.IntV? || !IsIntKind(v.width) { return Unreachable; }
      match KindOf(to) {
        case KSmallint => return Converted(IntV(KSmallint, Truncate(KSmallint, v.n)));
        case KInteger => return Converted(IntV(KInteger, Truncate(KInteger, v.n)));
        case KBigint => return Converted(IntV(KBigint, v.n));
        case _ => return Unreachable;
      }
    }
    if from.Row? && to.Row? && |from.fields| == |to.fields| {
      if !v.RowV? || |v.fields| != |from.fields| { return Unreachable; }
      c := ConvertRow(v.fields, from.fields, to.fields);
      return;
    }
    return NotLossless;
  }

  method ConvertRow(vs: seq<Value>, from: seq<Type>, to: seq<Type>) returns (c: Conversion)
    requires |vs| == |from| == |to|
    ensures c == ConvertFields(vs, from, to, 0)
    decreases vs
  {
    var fields := [];
    for i := 0 to |from|
      invariant ConvertFields(vs, from, to, 0) == Prepend(fields, ConvertFields(vs, from, to, i))
    {
      var field := ConvertConstant(vs[i], from[i], to[i]);
      if !field.Converted? { return field; }
      fields := fields + [field.value];
    }
    return Converted(RowV(fields));
  }
}
