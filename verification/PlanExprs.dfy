/** Expression trees of logical plans and their serialization. Types, variants and subquery plans
    serialize by codecs of their own, taken as parameters. */
module PlanExprs {
  import opened Wrappers
  import opened Values
  import opened Dynamic
  import Exprs

  datatype SpecialForm =
    | And | Or | Cast | TryCast | Try | Dereference | Coalesce | If | Switch | Star | In | Exists | NullIf
    | InArray | RowConstructor

  function FormName(f: SpecialForm): string {
    match f
    case And => "AND"
    case Or => "OR"
    case Cast => "CAST"
    case TryCast => "TRY_CAST"
    case Try => "TRY"
    case Dereference => "DEREFERENCE"
    case Coalesce => "COALESCE"
    case If => "IF"
    case Switch => "SWITCH"
    case Star => "STAR"
    case In => "IN"
    case Exists => "EXISTS"
    case NullIf => "NULLIF"
    case InArray => "IN_ARRAY"
    case RowConstructor => "ROW_CONSTRUCTOR"
  }

  const FORMS: seq<SpecialForm> := [
    And, Or, Cast, TryCast, Try, Dereference, Coalesce, If, Switch, Star, In, Exists, NullIf, InArray, RowConstructor]

  datatype AggregateKind = RowCount | NullCount | NonNullCount

  function AggregateName(k: AggregateKind): string {
    match k
    case RowCount => "METADATA_ROW_COUNT"
    case NullCount => "METADATA_NULL_COUNT"
    case NonNullCount => "METADATA_NON_NULL_COUNT"
  }

  const AGGREGATES := [RowCount, NullCount, NonNullCount]

  datatype WindowType = Rows | Range | Groups

  function WindowName(w: WindowType): string {
    match w case Rows => "ROWS" case Range => "RANGE" case Groups => "GROUPS"
  }

  const WINDOWS := [Rows, Range, Groups]

  datatype BoundType = CurrentRow | Preceding | Following | UnboundedPreceding | UnboundedFollowing

  function BoundName(b: BoundType): string {
    match b
    case CurrentRow => "CURRENT ROW"
    case Preceding => "PRECEDING"
    case Following => "FOLLOWING"
    case UnboundedPreceding => "UNBOUNDED PRECEDING"
    case UnboundedFollowing => "UNBOUNDED FOLLOWING"
  }

  const BOUNDS := [CurrentRow, Preceding, Following, UnboundedPreceding, UnboundedFollowing]

  /** The first enumerator of a table with the name. */
  function Named<T>(table: seq<T>, name: T -> string, s: string): (r: Option<T>)
    ensures r.Some? ==> r.value in table && name(r.value) == s
    ensures r.None? ==> forall x :: x in table ==> name(x) != s
  {
    if table == [] then None else if name(table[0]) == s then Some(table[0]) else Named(table[1..], name, s)
  }

  /** A subquery: the types of its columns, and everything else about its plan. */
  datatype Plan = Plan(columns: seq<Type>, rest: string)

  datatype SortingField = SortingField(expression: PlanExpr, ascending: bool, nullsFirst: bool)

  datatype Frame = Frame(
    kind: WindowType,
    startType: BoundType,
    startValue: Option<PlanExpr>,
    endType: BoundType,
    endValue: Option<PlanExpr>)

  datatype PlanExpr =
    | InputReference(ty: Type, name: string)
    | Constant(ty: Type, value: Value)
    | Call(ty: Type, name: string, inputs: seq<PlanExpr>)
    | Special(ty: Type, form: SpecialForm, inputs: seq<PlanExpr>)
    | Aggregate(
        ty: Type, name: string, inputs: seq<PlanExpr>, filter: Option<PlanExpr>, ordering: seq<SortingField>,
        distinct: bool)
    | SpecialAggregate(kind: AggregateKind, inputs: seq<PlanExpr>, fallback: Option<PlanExpr>)
    | Window(
        ty: Type, name: string, inputs: seq<PlanExpr>, partitionKeys: seq<PlanExpr>, ordering: seq<SortingField>,
        frame: Frame, ignoreNulls: bool)
    | Lambda(signature: Type, body: PlanExpr)
    | Subquery(plan: Plan)

  /** Serializers the expressions rely on, and the readers of scalars. */
  datatype Codecs = Codecs(
    typeTo: Type -> Dyn,
    typeFrom: Dyn -> Option<Type>,
    valueTo: Value -> Dyn,
    valueFrom: Dyn -> Option<Value>,
    planTo: Plan -> Dyn,
    planFrom: Dyn -> Option<Plan>,
    functionType: (Type, PlanExpr) -> Dyn,
    reader: Reader)

  ghost predicate ValidCodecs(c: Codecs) {
    && (forall t :: c.typeFrom(c.typeTo(t)) == Some(t))
    && (forall v :: c.valueFrom(c.valueTo(v)) == Some(v))
    && (forall p :: c.planFrom(c.planTo(p)) == Some(p))
    && ValidReader(c.reader)
  }

  // ----- What the constructors check.

  /** None is a function type, which only lambdas have. */
  function TypeOf(e: PlanExpr): Option<Type> {
    match e
    case SpecialAggregate(_, _, _) => Some(Bigint)
    case Lambda(_, _) => None
    case Subquery(plan) => if plan.columns == [] then None else Some(plan.columns[0])
    case _ => Some(e.ty)
  }

  predicate OfType(e: PlanExpr, ty: Type) {
    TypeOf(e).Some? && Equivalent(TypeOf(e).value, ty)
  }

  predicate OfKind(e: PlanExpr, kind: Kind) {
    TypeOf(e).Some? && KindOf(TypeOf(e).value) == kind
  }

  /** The field is a constant that names one, by name or position, of the type. */
  predicate ValidDereference(ty: Type, inputs: seq<PlanExpr>) {
    && |inputs| == 2 && TypeOf(inputs[0]).Some? && TypeOf(inputs[0]).value.Row?
    && inputs[1].Constant? && (OfKind(inputs[1], KVarchar) || OfKind(inputs[1], KInteger))
    && inputs[1].value != StrV("")
    && var row := TypeOf(inputs[0]).value;
       var index := Exprs.FieldIndex(row, inputs[1].value);
       index.Some? && index.value < |row.fields| && Equivalent(ty, row.fields[index.value])
  }

  /** Conditions at even positions, results after each, and perhaps a last result. */
  predicate ValidSwitch(ty: Type, inputs: seq<PlanExpr>) {
    && |inputs| >= 2
    && (forall i :: 0 <= i < |inputs| / 2 ==> OfKind(inputs[2 * i], KBoolean) && OfType(inputs[2 * i + 1], ty))
    && (|inputs| % 2 == 1 ==> OfType(inputs[|inputs| - 1], ty))
  }

  predicate ValidForm(ty: Type, form: SpecialForm, inputs: seq<PlanExpr>) {
    match form
    case And => |inputs| >= 2 && forall i :: 0 <= i < |inputs| ==> OfKind(inputs[i], KBoolean) || OfKind(inputs[i], KUnknown)
    case Or => |inputs| >= 2 && forall i :: 0 <= i < |inputs| ==> OfKind(inputs[i], KBoolean) || OfKind(inputs[i], KUnknown)
    case Cast => |inputs| == 1
    case TryCast => |inputs| == 1
    case Try => |inputs| == 1
    case Dereference => ValidDereference(ty, inputs)
    case Coalesce =>
      |inputs| >= 2 && TypeOf(inputs[0]).Some? && forall i :: 0 <= i < |inputs| ==> OfType(inputs[i], TypeOf(inputs[0]).value)
    case If => 2 <= |inputs| <= 3 && OfKind(inputs[0], KBoolean) && forall i :: 1 <= i < |inputs| ==> OfType(inputs[i], ty)
    case Switch => ValidSwitch(ty, inputs)
    case Star => true
    case In =>
      && KindOf(ty) == KBoolean && |inputs| >= 2 && TypeOf(inputs[0]).Some?
      && forall i :: 1 <= i < |inputs| ==> OfType(inputs[i], TypeOf(inputs[0]).value)
    case InArray =>
      && KindOf(ty) == KBoolean && |inputs| == 2 && TypeOf(inputs[0]).Some? && OfType(inputs[1], Array(TypeOf(inputs[0]).value))
      && inputs[1].Constant? && inputs[1].value.ArrayV? && inputs[1].value.elements != []
    case Exists => |inputs| == 1 && inputs[0].Subquery?
    case NullIf => |inputs| == 3
    case RowConstructor =>
      ty.Row? && |inputs| == |ty.fields| && forall i :: 0 <= i < |inputs| ==> OfType(inputs[i], ty.fields[i])
  }

  function Upper(c: char): char {
    if 'a' <= c <= 'z' then (c as int - 32) as char else c
  }

  function Uppered(s: string): string {
    seq(|s|, i requires 0 <= i < |s| => Upper(s[i]))
  }

  /** Reads a column that is none of the names, outside lambdas. */
  predicate HasCaptures(e: PlanExpr, names: seq<string>) {
    match e
    case InputReference(_, name) => name !in names
    case Call(_, _, inputs) => exists i :: 0 <= i < |inputs| && HasCaptures(inputs[i], names)
    case Special(_, _, inputs) => exists i :: 0 <= i < |inputs| && HasCaptures(inputs[i], names)
    case Aggregate(_, _, inputs, _, _, _) => exists i :: 0 <= i < |inputs| && HasCaptures(inputs[i], names)
    case SpecialAggregate(_, inputs, _) => exists i :: 0 <= i < |inputs| && HasCaptures(inputs[i], names)
    case Window(_, _, inputs, _, _, _, _) => exists i :: 0 <= i < |inputs| && HasCaptures(inputs[i], names)
    case _ => false
  }

  predicate CaptureFree(inputs: seq<PlanExpr>) {
    forall i :: 0 <= i < |inputs| && inputs[i].Lambda? ==>
      inputs[i].signature.Row? && !HasCaptures(inputs[i].body, inputs[i].signature.names)
  }

  predicate ValidAggregate(e: PlanExpr)
    requires e.Aggregate?
  {
    && e.name != "" && CaptureFree(e.inputs)
    && (e.filter.Some? ==> OfKind(e.filter.value, KBoolean))
    && (e.distinct ==> e.inputs != [] && forall i :: 0 <= i < |e.ordering| ==> e.ordering[i].expression in e.inputs)
  }

  /** A bound with an offset has a value, of the type of the one ordering key if the frame is a
      range; any other bound has none. */
  predicate ValidFrameBound(kind: WindowType, bound: BoundType, value: Option<PlanExpr>, ordering: seq<SortingField>) {
    if bound == Preceding || bound == Following then
      value.Some? && (kind == Range ==> |ordering| == 1 && TypeOf(value.value) == TypeOf(ordering[0].expression))
    else value.None?
  }

  predicate ValidFrame(frame: Frame, ordering: seq<SortingField>) {
    && ValidFrameBound(frame.kind, frame.startType, frame.startValue, ordering)
    && ValidFrameBound(frame.kind, frame.endType, frame.endValue, ordering)
  }

  /** The node's own constructor accepts its fields. */
  predicate Constructible(e: PlanExpr) {
    match e
    case InputReference(_, _) => true
    case Constant(ty, value) => HasType(value, ty)
    case Call(_, name, _) => name != "" && Named(FORMS, FormName, Uppered(name)).None?
    case Special(ty, form, inputs) => ValidForm(ty, form, inputs)
    case Aggregate(_, _, _, _, _, _) => ValidAggregate(e)
    case SpecialAggregate(kind, inputs, fallback) =>
      && |inputs| == (if kind == RowCount then 0 else 1) && CaptureFree(inputs)
      && (fallback.Some? ==> OfKind(fallback.value, KBigint))
    case Window(_, _, _, _, ordering, frame, _) => ValidFrame(frame, ordering)
    case Lambda(signature, _) => signature.Row? && signature.fields != []
    case Subquery(plan) => plan.columns != []
  }

  /** Every node's constructor accepts it; a fallback is an aggregate. */
  predicate WellFormed(e: PlanExpr) {
    Constructible(e) &&
    match e
    case Call(_, _, inputs) => forall i :: 0 <= i < |inputs| ==> WellFormed(inputs[i])
    case Special(_, _, inputs) => forall i :: 0 <= i < |inputs| ==> WellFormed(inputs[i])
    case Aggregate(_, _, inputs, filter, ordering, _) =>
      && (forall i :: 0 <= i < |inputs| ==> WellFormed(inputs[i])) && (filter.Some? ==> WellFormed(filter.value))
      && forall i :: 0 <= i < |ordering| ==> WellFormed(ordering[i].expression)
    case SpecialAggregate(_, inputs, fallback) =>
      && (forall i :: 0 <= i < |inputs| ==> WellFormed(inputs[i]))
      && (fallback.Some? ==> WellFormed(fallback.value) && (fallback.value.Aggregate? || fallback.value.SpecialAggregate?))
    case Window(_, _, inputs, keys, ordering, frame, _) =>
      && (forall i :: 0 <= i < |inputs| ==> WellFormed(inputs[i]))
      && (forall i :: 0 <= i < |keys| ==> WellFormed(keys[i]))
      && (forall i :: 0 <= i < |ordering| ==> WellFormed(ordering[i].expression))
      && (frame.startValue.Some? ==> WellFormed(frame.startValue.value))
      && (frame.endValue.Some? ==> WellFormed(frame.endValue.value))
    case Lambda(_, body) => WellFormed(body)
    case _ => true
  }

  // ----- Serialization.

  function Base(name: string, ty: Dyn, inputs: seq<Dyn>): map<Key, Dyn> {
    WithMember(map[KName := DStr(name), KType := ty], KInputs, if inputs == [] then None else Some(DArr(inputs)))
  }

  function Serialize(c: Codecs, e: PlanExpr): Dyn
    decreases e, 1
  {
    match e
    case InputReference(ty, name) => DObj(Base("InputReferenceExpr", c.typeTo(ty), [])[KInputName := DStr(name)])
    case Constant(ty, value) => DObj(Base("ConstantExpr", c.typeTo(ty), [])[KValue := c.valueTo(value)])
    case Call(ty, name, inputs) =>
      DObj(Base("CallExpr", c.typeTo(ty), SerializeAll(c, inputs))[KFunctionName := DStr(name)])
    case Special(ty, form, inputs) =>
      DObj(Base("SpecialFormExpr", c.typeTo(ty), SerializeAll(c, inputs))[KForm := DStr(FormName(form))])
    case Aggregate(ty, name, inputs, filter, ordering, distinct) =>
      var base := Base("AggregateExpr", c.typeTo(ty), SerializeAll(c, inputs));
      var named := base[KFunctionName := DStr(name)][KDistinct := DBool(distinct)];
      DObj(WithMember(WithMember(named, KFilter, SerializeOption(c, filter)), KOrdering, SerializeOrdering(c, ordering)))
    case SpecialAggregate(kind, inputs, fallback) =>
      var base := Base("SpecialFormAggExpr", c.typeTo(Bigint), SerializeAll(c, inputs));
      DObj(WithMember(base[KSpecialAggregateKind := DStr(AggregateName(kind))], KFallback, SerializeOption(c, fallback)))
    case Window(ty, name, inputs, keys, ordering, frame, ignoreNulls) =>
      var base := Base("WindowExpr", c.typeTo(ty), SerializeAll(c, inputs));
      var named := base[KFunctionName := DStr(name)][KIgnoreNulls := DBool(ignoreNulls)][KFrame := SerializeFrame(c, frame)];
      var keyed := WithMember(named, KPartitionKeys, if keys == [] then None else Some(DArr(SerializeAll(c, keys))));
      DObj(WithMember(keyed, KOrdering, SerializeOrdering(c, ordering)))
    case Lambda(signature, body) =>
      DObj(Base("LambdaExpr", c.functionType(signature, body), [])
             [KSignature := c.typeTo(signature)][KBody := Serialize(c, body)])
    case Subquery(plan) =>
      DObj(Base("SubqueryExpr", c.typeTo(if plan.columns == [] then Unknown else plan.columns[0]), [])
             [KSubquery := c.planTo(plan)])
  }

  function SerializeAll(c: Codecs, es: seq<PlanExpr>): (ds: seq<Dyn>)
    ensures |ds| == |es| && forall i :: 0 <= i < |es| ==> ds[i] == Serialize(c, es[i])
    decreases es, 0
  {
    seq(|es|, i requires 0 <= i < |es| => Serialize(c, es[i]))
  }

  function SerializeOption(c: Codecs, e: Option<PlanExpr>): Option<Dyn>
    decreases e, 0
  {
    match e case None => None case Some(x) => Some(Serialize(c, x))
  }

  function SerializeOrdering(c: Codecs, fs: seq<SortingField>): Option<Dyn>
    decreases fs, 0
  {
    if fs == [] then None else Some(DArr(seq(|fs|, i requires 0 <= i < |fs| => SerializeField(c, fs[i]))))
  }

  function SerializeField(c: Codecs, f: SortingField): Dyn
    decreases f, 0
  {
    DObj(map[
      KExpression := Serialize(c, f.expression),
      KOrder := DObj(map[KAscending := DBool(f.ascending), KNullsFirst := DBool(f.nullsFirst)])])
  }

  function SerializeFrame(c: Codecs, f: Frame): Dyn
    decreases f, 0
  {
    var typed := map[
      KType := DStr(WindowName(f.kind)), KStartType := DStr(BoundName(f.startType)), KEndType := DStr(BoundName(f.endType))];
    DObj(WithMember(WithMember(typed, KStartValue, SerializeOption(c, f.startValue)), KEndValue, SerializeOption(c, f.endValue)))
  }

  // ----- Deserialization. None is a failure.

  function Checked(e: PlanExpr): (r: Option<PlanExpr>)
    ensures r.Some? ==> r.value == e && Constructible(e)
  {
    if Constructible(e) then Some(e) else None
  }

  function Create(c: Codecs, d: Dyn): Option<PlanExpr>
    decreases d, 3
  {
    match StringAt(c.reader, d, KName)
    case None => None
    case Some(name) =>
      if name == "LambdaExpr" then CreateLambda(c, d)
      else if name == "SubqueryExpr" then
        if !Has(d, KSubquery) then None
        else match c.planFrom(d.fields[KSubquery]) case None => None case Some(plan) => Checked(Subquery(plan))
      else if name == "SpecialFormAggExpr" then CreateSpecialAggregate(c, d)
      else if !Has(d, KType) then None
      else
        match c.typeFrom(d.fields[KType])
        case None => None
        case Some(ty) => CreateTyped(c, d, name, ty)
  }

  function CreateTyped(c: Codecs, d: Dyn, name: string, ty: Type): Option<PlanExpr>
    decreases d, 2
  {
    if name == "ConstantExpr" then
      if !Has(d, KValue) then None
      else match c.valueFrom(d.fields[KValue]) case None => None case Some(v) => Checked(Constant(ty, v))
    else if name == "InputReferenceExpr" then
      match StringAt(c.reader, d, KInputName) case None => None case Some(n) => Checked(InputReference(ty, n))
    else
      match CreateList(c, d, KInputs)
      case None => None
      case Some(inputs) =>
        if name == "CallExpr" then
          match StringAt(c.reader, d, KFunctionName) case None => None case Some(n) => Checked(Call(ty, n, inputs))
        else if name == "SpecialFormExpr" then
          match StringAt(c.reader, d, KForm)
          case None => None
          case Some(s) =>
            match Named(FORMS, FormName, s) case None => None case Some(form) => Checked(Special(ty, form, inputs))
        else if name == "AggregateExpr" then CreateAggregate(c, d, ty, inputs)
        else if name == "WindowExpr" then CreateWindow(c, d, ty, inputs)
        else None
  }

  function CreateLambda(c: Codecs, d: Dyn): Option<PlanExpr>
    requires d.DObj?
    decreases d, 2
  {
    if !Has(d, KSignature) || !Has(d, KBody) then None
    else
      match (c.typeFrom(d.fields[KSignature]), Create(c, d.fields[KBody]))
      case (Some(signature), Some(body)) => Checked(Lambda(signature, body))
      case _ => None
  }

  function CreateAggregate(c: Codecs, d: Dyn, ty: Type, inputs: seq<PlanExpr>): Option<PlanExpr>
    decreases d, 1
  {
    match (CreateOptional(c, d, KFilter), CreateFields(c, d), StringAt(c.reader, d, KFunctionName), BoolAt(c.reader, d, KDistinct))
    case (Some(filter), Some(ordering), Some(name), Some(distinct)) =>
      Checked(Aggregate(ty, name, inputs, filter, ordering, distinct))
    case _ => None
  }

  function CreateSpecialAggregate(c: Codecs, d: Dyn): Option<PlanExpr>
    decreases d, 1
  {
    match (CreateList(c, d, KInputs), StringAt(c.reader, d, KSpecialAggregateKind), CreateOptional(c, d, KFallback))
    case (Some(inputs), Some(s), Some(fallback)) =>
      (match Named(AGGREGATES, AggregateName, s)
       case None => None
       case Some(kind) =>
         if fallback.Some? && !fallback.value.Aggregate? && !fallback.value.SpecialAggregate? then None
         else Checked(SpecialAggregate(kind, inputs, fallback)))
    case _ => None
  }

  function CreateWindow(c: Codecs, d: Dyn, ty: Type, inputs: seq<PlanExpr>): Option<PlanExpr>
    decreases d, 1
  {
    if !Has(d, KFrame) then None
    else
      match (CreateList(c, d, KPartitionKeys), CreateFields(c, d), CreateFrame(c, d.fields[KFrame]))
      case (Some(keys), Some(ordering), Some(frame)) =>
        (match (StringAt(c.reader, d, KFunctionName), BoolAt(c.reader, d, KIgnoreNulls))
         case (Some(name), Some(ignoreNulls)) => Checked(Window(ty, name, inputs, keys, ordering, frame, ignoreNulls))
         case _ => None)
      case _ => None
  }

  /** An absent list is empty. */
  function CreateList(c: Codecs, d: Dyn, k: Key): Option<seq<PlanExpr>>
    decreases d, 0
  {
    if !Has(d, k) then Some([])
    else if !d.fields[k].DArr? then None
    else CreateEach(c, d.fields[k].items)
  }

  function CreateEach(c: Codecs, items: seq<Dyn>): Option<seq<PlanExpr>>
    decreases items, 0
  {
    Each(items, x requires x in items => Create(c, x))
  }

  function CreateOptional(c: Codecs, d: Dyn, k: Key): Option<Option<PlanExpr>>
    decreases d, 0
  {
    if !Has(d, k) then Some(None)
    else match Create(c, d.fields[k]) case None => None case Some(e) => Some(Some(e))
  }

  function CreateFields(c: Codecs, d: Dyn): Option<seq<SortingField>>
    decreases d, 0
  {
    if !Has(d, KOrdering) then Some([])
    else if !d.fields[KOrdering].DArr? then None
    else CreateEachField(c, d.fields[KOrdering].items)
  }

  function CreateEachField(c: Codecs, items: seq<Dyn>): Option<seq<SortingField>>
    decreases items, 0
  {
    Each(items, x requires x in items => CreateField(c, x))
  }

  function CreateField(c: Codecs, d: Dyn): Option<SortingField>
    decreases d, 0
  {
    if !Has(d, KExpression) || !Has(d, KOrder) then None
    else
      match (Create(c, d.fields[KExpression]), BoolAt(c.reader, d.fields[KOrder], KAscending),
             BoolAt(c.reader, d.fields[KOrder], KNullsFirst))
      case (Some(e), Some(ascending), Some(nullsFirst)) => Some(SortingField(e, ascending, nullsFirst))
      case _ => None
  }

  function CreateFrame(c: Codecs, d: Dyn): Option<Frame>
    decreases d, 1
  {
    match (StringAt(c.reader, d, KType), StringAt(c.reader, d, KStartType), StringAt(c.reader, d, KEndType))
    case (Some(kind), Some(start), Some(end)) =>
      (match (Named(WINDOWS, WindowName, kind), Named(BOUNDS, BoundName, start), Named(BOUNDS, BoundName, end))
       case (Some(k), Some(s), Some(e)) =>
         (match (CreateOptional(c, d, KStartValue), CreateOptional(c, d, KEndValue))
          case (Some(startValue), Some(endValue)) => Some(Frame(k, s, startValue, e, endValue))
          case _ => None)
       case _ => None)
    case _ => None
  }

  // ----- Creating what was serialized gives it back.

  lemma {:induction false} NamedInverse<T>(table: seq<T>, name: T -> string, x: T)
    requires x in table && forall y, z :: y in table && z in table && name(y) == name(z) ==> y == z
    ensures Named(table, name, name(x)) == Some(x)
  {
    if name(table[0]) != name(x) { NamedInverse(table[1..], name, x); }
  }

  lemma {:induction false} FormInverse(f: SpecialForm)
    ensures Named(FORMS, FormName, FormName(f)) == Some(f)
  {
    FormListed(f);
    forall y, z | y in FORMS && z in FORMS && FormName(y) == FormName(z) ensures y == z { FormNamesDiffer(y, z); }
    NamedInverse(FORMS, FormName, f);
  }

  lemma {:induction false} AggregateInverse(k: AggregateKind)
    ensures Named(AGGREGATES, AggregateName, AggregateName(k)) == Some(k)
  {
    assert AGGREGATES[0] == RowCount && AGGREGATES[1] == NullCount && AGGREGATES[2] == NonNullCount;
    forall y, z | y in AGGREGATES && z in AGGREGATES && AggregateName(y) == AggregateName(z) ensures y == z {
      AggregateNamesDiffer(y, z);
    }
    NamedInverse(AGGREGATES, AggregateName, k);
  }

  lemma {:induction false} WindowInverse(w: WindowType)
    ensures Named(WINDOWS, WindowName, WindowName(w)) == Some(w)
  {
    assert WINDOWS[0] == Rows && WINDOWS[1] == Range && WINDOWS[2] == Groups;
    forall y, z | y in WINDOWS && z in WINDOWS && WindowName(y) == WindowName(z) ensures y == z {
      WindowNamesDiffer(y, z);
    }
    NamedInverse(WINDOWS, WindowName, w);
  }

  lemma {:induction false} BoundInverse(b: BoundType)
    ensures Named(BOUNDS, BoundName, BoundName(b)) == Some(b)
  {
    assert BOUNDS[0] == CurrentRow && BOUNDS[1] == Preceding && BOUNDS[2] == Following;
    assert BOUNDS[3] == UnboundedPreceding && BOUNDS[4] == UnboundedFollowing;
    forall y, z | y in BOUNDS && z in BOUNDS && BoundName(y) == BoundName(z) ensures y == z { BoundNamesDiffer(y, z); }
    NamedInverse(BOUNDS, BoundName, b);
  }

  lemma {:induction false} AggregateNamesDiffer(y: AggregateKind, z: AggregateKind)
    requires AggregateName(y) == AggregateName(z)
    ensures y == z
  {
  }

  lemma {:induction false} WindowNamesDiffer(y: WindowType, z: WindowType)
    requires WindowName(y) == WindowName(z)
    ensures y == z
  {
    assert WindowName(y)[0] == WindowName(z)[0];
    assert WindowName(Rows)[1] == 'O' && WindowName(Range)[1] == 'A';
  }

  lemma {:induction false} BoundNamesDiffer(y: BoundType, z: BoundType)
    requires BoundName(y) == BoundName(z)
    ensures y == z
  {
    assert BoundName(UnboundedPreceding)[10] == 'P' && BoundName(UnboundedFollowing)[10] == 'F';
    assert BoundName(Preceding)[0] == 'P' && BoundName(Following)[0] == 'F';
  }

  lemma {:induction false} FormListed(f: SpecialForm)
    ensures f in FORMS
  {
    assert FORMS[0] == And && FORMS[1] == Or && FORMS[2] == Cast && FORMS[3] == TryCast && FORMS[4] == Try;
    assert FORMS[5] == Dereference && FORMS[6] == Coalesce && FORMS[7] == If && FORMS[8] == Switch && FORMS[9] == Star;
    assert FORMS[10] == In && FORMS[11] == Exists && FORMS[12] == NullIf && FORMS[13] == InArray && FORMS[14] == RowConstructor;
  }

  lemma {:induction false} FormNamesDiffer(f: SpecialForm, g: SpecialForm)
    requires FormName(f) == FormName(g)
    ensures f == g
  {
  }

  ghost predicate Trips(c: Codecs, e: PlanExpr) {
    Create(c, Serialize(c, e)) == Some(e)
  }

  ghost predicate AllTrip(c: Codecs, es: seq<PlanExpr>) {
    forall i :: 0 <= i < |es| ==> Trips(c, es[i])
  }

  ghost predicate MaybeTrips(c: Codecs, e: Option<PlanExpr>) {
    e.Some? ==> Trips(c, e.value)
  }

  ghost predicate OrderingTrips(c: Codecs, fs: seq<SortingField>) {
    forall i :: 0 <= i < |fs| ==> Trips(c, fs[i].expression)
  }

  lemma {:induction false} ListTrips(c: Codecs, es: seq<PlanExpr>)
    requires AllTrip(c, es)
    ensures CreateEach(c, SerializeAll(c, es)) == Some(es)
  {
    var ds := SerializeAll(c, es);
    forall j | 0 <= j < |es| ensures Create(c, ds[j]) == Some(es[j]) { assert Trips(c, es[j]); }
    assert CreateEach(c, ds).Some?;
    assert CreateEach(c, ds).value == es;
  }

  /** A list member that is absent when the list is empty. */
  lemma {:induction false} ListAtTrips(c: Codecs, d: Dyn, k: Key, es: seq<PlanExpr>)
    requires AllTrip(c, es)
    requires d.DObj? && (k in d.fields <==> es != []) && (es != [] ==> d.fields[k] == DArr(SerializeAll(c, es)))
    ensures CreateList(c, d, k) == Some(es)
  {
    ListTrips(c, es);
  }

  lemma {:induction false} OptionAtTrips(c: Codecs, d: Dyn, k: Key, e: Option<PlanExpr>)
    requires MaybeTrips(c, e)
    requires d.DObj? && (k in d.fields <==> e.Some?) && (e.Some? ==> d.fields[k] == Serialize(c, e.value))
    ensures CreateOptional(c, d, k) == Some(e)
  {
  }

  function SerializeFields(c: Codecs, fs: seq<SortingField>): (ds: seq<Dyn>)
    ensures |ds| == |fs| && forall i :: 0 <= i < |fs| ==> ds[i] == SerializeField(c, fs[i])
  {
    seq(|fs|, i requires 0 <= i < |fs| => SerializeField(c, fs[i]))
  }

  lemma {:induction false} FieldTrips(c: Codecs, f: SortingField)
    requires ValidReader(c.reader) && Trips(c, f.expression)
    ensures CreateField(c, SerializeField(c, f)) == Some(f)
  {
    var d := SerializeField(c, f);
    assert Has(d, KExpression) && Has(d, KOrder);
    assert BoolAt(c.reader, d.fields[KOrder], KAscending) == Some(f.ascending);
    assert BoolAt(c.reader, d.fields[KOrder], KNullsFirst) == Some(f.nullsFirst);
  }

  lemma {:induction false} FieldsTrip(c: Codecs, fs: seq<SortingField>)
    requires ValidReader(c.reader) && OrderingTrips(c, fs)
    ensures CreateEachField(c, SerializeFields(c, fs)) == Some(fs)
  {
    var ds := SerializeFields(c, fs);
    forall j | 0 <= j < |fs| ensures CreateField(c, ds[j]) == Some(fs[j]) { FieldTrips(c, fs[j]); }
    assert CreateEachField(c, ds).Some?;
    assert CreateEachField(c, ds).value == fs;
  }

  lemma {:induction false} OrderingAtTrips(c: Codecs, d: Dyn, fs: seq<SortingField>)
    requires ValidReader(c.reader) && OrderingTrips(c, fs)
    requires d.DObj? && (KOrdering in d.fields <==> fs != [])
    requires fs != [] ==> Some(d.fields[KOrdering]) == SerializeOrdering(c, fs)
    ensures CreateFields(c, d) == Some(fs)
  {
    if fs != [] {
      assert d.fields[KOrdering].items == SerializeFields(c, fs);
      FieldsTrip(c, fs);
    }
  }

  lemma {:induction false} FrameTrips(c: Codecs, f: Frame)
    requires ValidReader(c.reader) && MaybeTrips(c, f.startValue) && MaybeTrips(c, f.endValue)
    ensures CreateFrame(c, SerializeFrame(c, f)) == Some(f)
  {
    FrameValuesTrip(c, f);
    FrameNamesTrip(c, f);
    FrameFromParts(c, f, SerializeFrame(c, f));
  }

  lemma {:induction false} FrameFromParts(c: Codecs, f: Frame, d: Dyn)
    requires CreateOptional(c, d, KStartValue) == Some(f.startValue)
    requires CreateOptional(c, d, KEndValue) == Some(f.endValue)
    requires StringAt(c.reader, d, KType) == Some(WindowName(f.kind))
    requires StringAt(c.reader, d, KStartType) == Some(BoundName(f.startType))
    requires StringAt(c.reader, d, KEndType) == Some(BoundName(f.endType))
    requires Named(WINDOWS, WindowName, WindowName(f.kind)) == Some(f.kind)
    requires Named(BOUNDS, BoundName, BoundName(f.startType)) == Some(f.startType)
    requires Named(BOUNDS, BoundName, BoundName(f.endType)) == Some(f.endType)
    ensures CreateFrame(c, d) == Some(f)
  {
  }

  lemma {:induction false} FrameValuesTrip(c: Codecs, f: Frame)
    requires MaybeTrips(c, f.startValue) && MaybeTrips(c, f.endValue)
    ensures CreateOptional(c, SerializeFrame(c, f), KStartValue) == Some(f.startValue)
    ensures CreateOptional(c, SerializeFrame(c, f), KEndValue) == Some(f.endValue)
  {
    var d := SerializeFrame(c, f);
    assert SerializeOption(c, f.startValue).Some? <==> f.startValue.Some?;
    assert SerializeOption(c, f.endValue).Some? <==> f.endValue.Some?;
    OptionAtTrips(c, d, KStartValue, f.startValue);
    OptionAtTrips(c, d, KEndValue, f.endValue);
  }

  lemma {:induction false} FrameNamesTrip(c: Codecs, f: Frame)
    requires ValidReader(c.reader)
    ensures var d := SerializeFrame(c, f);
            && StringAt(c.reader, d, KType) == Some(WindowName(f.kind))
            && StringAt(c.reader, d, KStartType) == Some(BoundName(f.startType))
            && StringAt(c.reader, d, KEndType) == Some(BoundName(f.endType))
    ensures Named(WINDOWS, WindowName, WindowName(f.kind)) == Some(f.kind)
    ensures Named(BOUNDS, BoundName, BoundName(f.startType)) == Some(f.startType)
    ensures Named(BOUNDS, BoundName, BoundName(f.endType)) == Some(f.endType)
  {
    WindowInverse(f.kind);
    BoundInverse(f.startType);
    BoundInverse(f.endType);
  }

  lemma {:induction false} InputsTrip(c: Codecs, e: PlanExpr, inputs: seq<PlanExpr>)
    requires AllTrip(c, inputs)
    requires e.Call? || e.Special? || e.Aggregate? || e.SpecialAggregate? || e.Window?
    requires inputs == e.inputs
    ensures CreateList(c, Serialize(c, e), KInputs) == Some(inputs)
  {
    ListAtTrips(c, Serialize(c, e), KInputs, inputs);
  }

  /** Typed nodes are created by their name. */
  lemma {:induction false} TypedTrips(c: Codecs, e: PlanExpr, name: string)
    requires ValidCodecs(c) && (e.Call? || e.Special? || e.Aggregate? || e.Window?)
    requires name == if e.Call? then "CallExpr" else if e.Special? then "SpecialFormExpr"
                     else if e.Aggregate? then "AggregateExpr" else "WindowExpr"
    ensures Create(c, Serialize(c, e)) == CreateTyped(c, Serialize(c, e), name, e.ty)
  {
    TypedMembers(c, e, name);
    CreatesTyped(c, Serialize(c, e), name, e.ty);
  }

  lemma {:induction false} TypedMembers(c: Codecs, e: PlanExpr, name: string)
    requires ValidCodecs(c) && (e.Call? || e.Special? || e.Aggregate? || e.Window?)
    requires name == if e.Call? then "CallExpr" else if e.Special? then "SpecialFormExpr"
                     else if e.Aggregate? then "AggregateExpr" else "WindowExpr"
    ensures var d := Serialize(c, e);
            StringAt(c.reader, d, KName) == Some(name) && Has(d, KType) && c.typeFrom(d.fields[KType]) == Some(e.ty)
  {
  }

  lemma {:induction false} CreatesTyped(c: Codecs, d: Dyn, name: string, ty: Type)
    requires StringAt(c.reader, d, KName) == Some(name) && Has(d, KType) && c.typeFrom(d.fields[KType]) == Some(ty)
    requires name == "CallExpr" || name == "SpecialFormExpr" || name == "AggregateExpr" || name == "WindowExpr"
    ensures Create(c, d) == CreateTyped(c, d, name, ty)
  {
    assert name[0] != 'L' && name[1] != 'u' && |name| != |"SpecialFormAggExpr"|;
  }

  lemma {:induction false} CallTrips(c: Codecs, e: PlanExpr)
    requires ValidCodecs(c) && Constructible(e) && e.Call? && AllTrip(c, e.inputs)
    ensures Trips(c, e)
  {
    var d := Serialize(c, e);
    InputsTrip(c, e, e.inputs);
    TypedTrips(c, e, "CallExpr");
    assert StringAt(c.reader, d, KFunctionName) == Some(e.name);
  }

  lemma {:induction false} SpecialTrips(c: Codecs, e: PlanExpr)
    requires ValidCodecs(c) && Constructible(e) && e.Special? && AllTrip(c, e.inputs)
    ensures Trips(c, e)
  {
    var d := Serialize(c, e);
    InputsTrip(c, e, e.inputs);
    TypedTrips(c, e, "SpecialFormExpr");
    assert StringAt(c.reader, d, KForm) == Some(FormName(e.form));
    SpecialFromParts(c, e, d);
  }

  lemma {:induction false} SpecialFromParts(c: Codecs, e: PlanExpr, d: Dyn)
    requires e.Special? && Constructible(e) && CreateList(c, d, KInputs) == Some(e.inputs)
    requires StringAt(c.reader, d, KForm) == Some(FormName(e.form))
    ensures CreateTyped(c, d, "SpecialFormExpr", e.ty) == Some(e)
  {
    FormInverse(e.form);
    assert Checked(Special(e.ty, e.form, e.inputs)) == Some(e);
  }

  lemma {:induction false} AggregateTrips(c: Codecs, e: PlanExpr)
    requires ValidCodecs(c) && Constructible(e) && e.Aggregate?
    requires AllTrip(c, e.inputs) && MaybeTrips(c, e.filter) && OrderingTrips(c, e.ordering)
    ensures Trips(c, e)
  {
    var d := Serialize(c, e);
    TypedTrips(c, e, "AggregateExpr");
    InputsTrip(c, e, e.inputs);
    AggregatePartsTrip(c, e);
  }

  lemma {:induction false} AggregatePartsTrip(c: Codecs, e: PlanExpr)
    requires ValidCodecs(c) && Constructible(e) && e.Aggregate?
    requires MaybeTrips(c, e.filter) && OrderingTrips(c, e.ordering)
    ensures CreateAggregate(c, Serialize(c, e), e.ty, e.inputs) == Some(e)
  {
    var d := Serialize(c, e);
    assert SerializeOption(c, e.filter).Some? <==> e.filter.Some?;
    assert SerializeOrdering(c, e.ordering).Some? <==> e.ordering != [];
    assert CreateOptional(c, d, KFilter) == Some(e.filter) by { OptionAtTrips(c, d, KFilter, e.filter); }
    assert CreateFields(c, d) == Some(e.ordering) by { OrderingAtTrips(c, d, e.ordering); }
    assert StringAt(c.reader, d, KFunctionName) == Some(e.name);
    assert BoolAt(c.reader, d, KDistinct) == Some(e.distinct);
    AggregateFromParts(c, e, d);
  }

  lemma {:induction false} AggregateFromParts(c: Codecs, e: PlanExpr, d: Dyn)
    requires e.Aggregate? && Constructible(e)
    requires CreateOptional(c, d, KFilter) == Some(e.filter) && CreateFields(c, d) == Some(e.ordering)
    requires StringAt(c.reader, d, KFunctionName) == Some(e.name) && BoolAt(c.reader, d, KDistinct) == Some(e.distinct)
    ensures CreateAggregate(c, d, e.ty, e.inputs) == Some(e)
  {
  }

  lemma {:induction false} SpecialAggregateTrips(c: Codecs, e: PlanExpr)
    requires ValidCodecs(c) && Constructible(e) && e.SpecialAggregate?
    requires AllTrip(c, e.inputs) && MaybeTrips(c, e.fallback)
    requires e.fallback.Some? ==> e.fallback.value.Aggregate? || e.fallback.value.SpecialAggregate?
    ensures Trips(c, e)
  {
    var d := Serialize(c, e);
    InputsTrip(c, e, e.inputs);
    SpecialAggregateMembers(c, e);
    OptionAtTrips(c, d, KFallback, e.fallback);
    AggregateInverse(e.kind);
    SpecialAggregateFromParts(c, e, d);
  }

  lemma {:induction false} SpecialAggregateMembers(c: Codecs, e: PlanExpr)
    requires ValidCodecs(c) && e.SpecialAggregate?
    ensures var d := Serialize(c, e);
            && d.DObj? && (KFallback in d.fields <==> e.fallback.Some?)
            && (e.fallback.Some? ==> d.fields[KFallback] == Serialize(c, e.fallback.value))
            && StringAt(c.reader, d, KName) == Some("SpecialFormAggExpr")
            && StringAt(c.reader, d, KSpecialAggregateKind) == Some(AggregateName(e.kind))
  {
    assert SerializeOption(c, e.fallback).Some? <==> e.fallback.Some?;
  }

  lemma {:induction false} SpecialAggregateFromParts(c: Codecs, e: PlanExpr, d: Dyn)
    requires e.SpecialAggregate? && Constructible(e)
    requires e.fallback.Some? ==> e.fallback.value.Aggregate? || e.fallback.value.SpecialAggregate?
    requires CreateList(c, d, KInputs) == Some(e.inputs) && CreateOptional(c, d, KFallback) == Some(e.fallback)
    requires StringAt(c.reader, d, KName) == Some("SpecialFormAggExpr")
    requires StringAt(c.reader, d, KSpecialAggregateKind) == Some(AggregateName(e.kind))
    requires Named(AGGREGATES, AggregateName, AggregateName(e.kind)) == Some(e.kind)
    ensures Create(c, d) == Some(e)
  {
    assert CreateSpecialAggregate(c, d) == Some(e);
  }

  lemma {:induction false} WindowTrips(c: Codecs, e: PlanExpr)
    requires ValidCodecs(c) && Constructible(e) && e.Window?
    requires AllTrip(c, e.inputs) && AllTrip(c, e.partitionKeys) && OrderingTrips(c, e.ordering)
    requires MaybeTrips(c, e.frame.startValue) && MaybeTrips(c, e.frame.endValue)
    ensures Trips(c, e)
  {
    var d := Serialize(c, e);
    TypedTrips(c, e, "WindowExpr");
    assert CreateList(c, d, KInputs) == Some(e.inputs) by { InputsTrip(c, e, e.inputs); }
    assert CreateWindow(c, d, e.ty, e.inputs) == Some(e) by { WindowPartsTrip(c, e); }
    assert CreateTyped(c, d, "WindowExpr", e.ty) == CreateWindow(c, d, e.ty, e.inputs);
  }

  lemma {:induction false} WindowPartsTrip(c: Codecs, e: PlanExpr)
    requires ValidCodecs(c) && Constructible(e) && e.Window?
    requires AllTrip(c, e.partitionKeys) && OrderingTrips(c, e.ordering)
    requires MaybeTrips(c, e.frame.startValue) && MaybeTrips(c, e.frame.endValue)
    ensures CreateWindow(c, Serialize(c, e), e.ty, e.inputs) == Some(e)
  {
    var d := Serialize(c, e);
    WindowMembers(c, e);
    ListAtTrips(c, d, KPartitionKeys, e.partitionKeys);
    OrderingAtTrips(c, d, e.ordering);
    FrameTrips(c, e.frame);
    WindowFromParts(c, e, d);
  }

  lemma {:induction false} WindowMembers(c: Codecs, e: PlanExpr)
    requires ValidCodecs(c) && e.Window?
    ensures var d := Serialize(c, e);
            && d.DObj? && (KPartitionKeys in d.fields <==> e.partitionKeys != [])
            && (e.partitionKeys != [] ==> d.fields[KPartitionKeys] == DArr(SerializeAll(c, e.partitionKeys)))
            && (KOrdering in d.fields <==> e.ordering != [])
            && (e.ordering != [] ==> Some(d.fields[KOrdering]) == SerializeOrdering(c, e.ordering))
            && Has(d, KFrame) && d.fields[KFrame] == SerializeFrame(c, e.frame)
            && StringAt(c.reader, d, KFunctionName) == Some(e.name)
            && BoolAt(c.reader, d, KIgnoreNulls) == Some(e.ignoreNulls)
  {
    assert SerializeOrdering(c, e.ordering).Some? <==> e.ordering != [];
  }

  lemma {:induction false} WindowFromParts(c: Codecs, e: PlanExpr, d: Dyn)
    requires e.Window? && Constructible(e) && Has(d, KFrame)
    requires CreateList(c, d, KPartitionKeys) == Some(e.partitionKeys)
    requires CreateFields(c, d) == Some(e.ordering)
    requires CreateFrame(c, d.fields[KFrame]) == Some(e.frame)
    requires StringAt(c.reader, d, KFunctionName) == Some(e.name)
    requires BoolAt(c.reader, d, KIgnoreNulls) == Some(e.ignoreNulls)
    ensures CreateWindow(c, d, e.ty, e.inputs) == Some(e)
  {
  }

  lemma {:induction false} LeafTrips(c: Codecs, e: PlanExpr)
    requires ValidCodecs(c) && Constructible(e) && (e.InputReference? || e.Constant? || e.Subquery?)
    ensures Trips(c, e)
  {
    var d := Serialize(c, e);
    match e
    case InputReference(ty, _) =>
      assert StringAt(c.reader, d, KName) == Some("InputReferenceExpr");
      assert c.typeFrom(d.fields[KType]) == Some(ty);
    case Constant(ty, _) =>
      assert StringAt(c.reader, d, KName) == Some("ConstantExpr");
      assert c.typeFrom(d.fields[KType]) == Some(ty);
    case Subquery(_) =>
      assert StringAt(c.reader, d, KName) == Some("SubqueryExpr");
  }

  lemma {:induction false} LambdaTrips(c: Codecs, e: PlanExpr)
    requires ValidCodecs(c) && Constructible(e) && e.Lambda? && Trips(c, e.body)
    ensures Trips(c, e)
  {
    var d := Serialize(c, e);
    assert StringAt(c.reader, d, KName) == Some("LambdaExpr");
    assert CreateLambda(c, d) == Some(e);
  }

  /** Every well-formed expression survives serialization, whatever it nests. */
  lemma {:induction false} RoundTrip(c: Codecs, e: PlanExpr)
    requires ValidCodecs(c) && WellFormed(e)
    ensures Create(c, Serialize(c, e)) == Some(e)
    decreases e, 1
  {
    match e
    case Call(_, _, inputs) =>
      AllRoundTrip(c, inputs);
      CallTrips(c, e);
    case Special(_, _, inputs) =>
      AllRoundTrip(c, inputs);
      SpecialTrips(c, e);
    case Aggregate(_, _, inputs, filter, ordering, _) =>
      AllRoundTrip(c, inputs);
      if filter.Some? { RoundTrip(c, filter.value); }
      OrderingRoundTrip(c, ordering);
      AggregateTrips(c, e);
    case SpecialAggregate(_, inputs, fallback) =>
      AllRoundTrip(c, inputs);
      if fallback.Some? { RoundTrip(c, fallback.value); }
      SpecialAggregateTrips(c, e);
    case Window(_, _, _, _, _, _, _) =>
      WindowRoundTrip(c, e);
    case Lambda(_, body) =>
      RoundTrip(c, body);
      LambdaTrips(c, e);
    case _ =>
      LeafTrips(c, e);
  }

  lemma {:induction false} WindowRoundTrip(c: Codecs, e: PlanExpr)
    requires ValidCodecs(c) && WellFormed(e) && e.Window?
    ensures Trips(c, e)
    decreases e, 0
  {
    AllRoundTrip(c, e.inputs);
    AllRoundTrip(c, e.partitionKeys);
    OrderingRoundTrip(c, e.ordering);
    if e.frame.startValue.Some? { RoundTrip(c, e.frame.startValue.value); }
    if e.frame.endValue.Some? { RoundTrip(c, e.frame.endValue.value); }
    WindowTrips(c, e);
  }

  lemma {:induction false} AllRoundTrip(c: Codecs, es: seq<PlanExpr>)
    requires ValidCodecs(c) && forall i :: 0 <= i < |es| ==> WellFormed(es[i])
    ensures AllTrip(c, es)
    decreases es
  {
    forall i | 0 <= i < |es| ensures Trips(c, es[i]) { RoundTrip(c, es[i]); }
  }

  ghost predicate AllWellFormed(es: seq<PlanExpr>) {
    forall i :: 0 <= i < |es| ==> WellFormed(es[i])
  }

  ghost predicate OrderingIsWellFormed(fs: seq<SortingField>) {
    forall i :: 0 <= i < |fs| ==> WellFormed(fs[i].expression)
  }

  lemma {:induction false} OrderingRoundTrip(c: Codecs, fs: seq<SortingField>)
    requires ValidCodecs(c) && OrderingIsWellFormed(fs)
    ensures OrderingTrips(c, fs)
    decreases fs
  {
    forall i | 0 <= i < |fs| ensures Trips(c, fs[i].expression) { FieldRoundTrip(c, fs[i]); }
  }

  lemma {:induction false} FieldRoundTrip(c: Codecs, f: SortingField)
    requires ValidCodecs(c) && WellFormed(f.expression)
    ensures Trips(c, f.expression)
    decreases f
  {
    RoundTrip(c, f.expression);
  }

  // ----- Whatever can be created satisfies the constructors, at every depth.

  lemma {:induction false} CreatedIsWellFormed(c: Codecs, d: Dyn)
    ensures Create(c, d).Some? ==> WellFormed(Create(c, d).value)
    decreases d, 4
  {
    if Create(c, d).Some? {
      var name := StringAt(c.reader, d, KName).value;
      if name == "LambdaExpr" {
        if Has(d, KBody) { CreatedIsWellFormed(c, d.fields[KBody]); }
      } else if name == "SubqueryExpr" {
      } else if name == "SpecialFormAggExpr" {
        CreatedSpecialAggregateIsWellFormed(c, d);
      } else {
        CreatedTypedIsWellFormed(c, d, name, c.typeFrom(d.fields[KType]).value);
      }
    }
  }

  lemma {:induction false} CreatedSpecialAggregateIsWellFormed(c: Codecs, d: Dyn)
    ensures var r := CreateSpecialAggregate(c, d); r.Some? ==> WellFormed(r.value)
    decreases d, 3
  {
    CreatedListIsWellFormed(c, d, KInputs);
    CreatedOptionIsWellFormed(c, d, KFallback);
    SpecialAggregateParts(c, d);
    var r := CreateSpecialAggregate(c, d);
    if r.Some? {
      assert AllWellFormed(r.value.inputs);
    }
  }

  lemma {:induction false} SpecialAggregateParts(c: Codecs, d: Dyn)
    ensures var r := CreateSpecialAggregate(c, d);
            r.Some? ==>
              && r.value.SpecialAggregate? && Constructible(r.value)
              && CreateList(c, d, KInputs) == Some(r.value.inputs) && CreateOptional(c, d, KFallback) == Some(r.value.fallback)
              && (r.value.fallback.Some? ==> r.value.fallback.value.Aggregate? || r.value.fallback.value.SpecialAggregate?)
  {
  }

  lemma {:induction false} CreatedTypedIsWellFormed(c: Codecs, d: Dyn, name: string, ty: Type)
    ensures CreateTyped(c, d, name, ty).Some? ==> WellFormed(CreateTyped(c, d, name, ty).value)
    decreases d, 3
  {
    if CreateTyped(c, d, name, ty).Some? && name != "ConstantExpr" && name != "InputReferenceExpr" {
      CreatedListIsWellFormed(c, d, KInputs);
      CreatedWithInputs(c, d, name, ty, CreateList(c, d, KInputs).value);
    }
  }

  lemma {:induction false} CreatedWithInputs(c: Codecs, d: Dyn, name: string, ty: Type, inputs: seq<PlanExpr>)
    requires AllWellFormed(inputs)
    requires CreateList(c, d, KInputs) == Some(inputs) && name != "ConstantExpr" && name != "InputReferenceExpr"
    requires CreateTyped(c, d, name, ty).Some?
    ensures WellFormed(CreateTyped(c, d, name, ty).value)
    decreases d, 2, 1
  {
    if name == "AggregateExpr" {
      CreatedAggregateIsWellFormed(c, d, ty, inputs);
    } else if name == "WindowExpr" {
      CreatedWindowIsWellFormed(c, d, ty, inputs);
    } else {
      var e := CreateTyped(c, d, name, ty).value;
      assert (e.Call? || e.Special?) && e.inputs == inputs && Constructible(e);
    }
  }

  lemma {:induction false} CreatedAggregateIsWellFormed(c: Codecs, d: Dyn, ty: Type, inputs: seq<PlanExpr>)
    requires AllWellFormed(inputs)
    ensures var r := CreateAggregate(c, d, ty, inputs); r.Some? ==> WellFormed(r.value)
    decreases d, 2, 0
  {
    CreatedOptionIsWellFormed(c, d, KFilter);
    CreatedFieldsAreWellFormed(c, d);
  }

  lemma {:induction false} CreatedWindowIsWellFormed(c: Codecs, d: Dyn, ty: Type, inputs: seq<PlanExpr>)
    requires AllWellFormed(inputs)
    ensures var r := CreateWindow(c, d, ty, inputs); r.Some? ==> WellFormed(r.value)
    decreases d, 2, 0
  {
    CreatedListIsWellFormed(c, d, KPartitionKeys);
    CreatedFieldsAreWellFormed(c, d);
    if Has(d, KFrame) { CreatedFrameIsWellFormed(c, d.fields[KFrame]); }
    if CreateWindow(c, d, ty, inputs).Some? {
      var w := CreateWindow(c, d, ty, inputs).value;
      assert Some(w.ordering) == CreateFields(c, d) && Some(w.partitionKeys) == CreateList(c, d, KPartitionKeys);
      assert OrderingIsWellFormed(w.ordering);
      assert AllWellFormed(w.partitionKeys);
      assert Some(w.frame) == CreateFrame(c, d.fields[KFrame]) && Constructible(w);
    }
  }

  lemma {:induction false} CreatedFrameIsWellFormed(c: Codecs, d: Dyn)
    ensures var r := CreateFrame(c, d);
            r.Some? ==>
              && (r.value.startValue.Some? ==> WellFormed(r.value.startValue.value))
              && (r.value.endValue.Some? ==> WellFormed(r.value.endValue.value))
    decreases d, 1
  {
    CreatedOptionIsWellFormed(c, d, KStartValue);
    CreatedOptionIsWellFormed(c, d, KEndValue);
  }

  lemma {:induction false} CreatedOptionIsWellFormed(c: Codecs, d: Dyn, k: Key)
    ensures var r := CreateOptional(c, d, k); r.Some? && r.value.Some? ==> WellFormed(r.value.value)
    decreases d, 0
  {
    if Has(d, k) { CreatedIsWellFormed(c, d.fields[k]); }
  }

  lemma {:induction false} CreatedListIsWellFormed(c: Codecs, d: Dyn, k: Key)
    ensures var r := CreateList(c, d, k); r.Some? ==> AllWellFormed(r.value)
    decreases d, 0
  {
    if Has(d, k) && d.fields[k].DArr? { CreatedEachIsWellFormed(c, d.fields[k].items); }
  }

  lemma {:induction false} CreatedEachIsWellFormed(c: Codecs, items: seq<Dyn>)
    ensures var r := CreateEach(c, items); r.Some? ==> AllWellFormed(r.value)
    decreases items, 0
  {
    var r := CreateEach(c, items);
    forall j | 0 <= j < |items| && r.Some? ensures WellFormed(r.value[j]) {
      assert Create(c, items[j]) == Some(r.value[j]);
      CreatedIsWellFormed(c, items[j]);
    }
  }

  lemma {:induction false} CreatedFieldsAreWellFormed(c: Codecs, d: Dyn)
    ensures var r := CreateFields(c, d);
            r.Some? ==> OrderingIsWellFormed(r.value)
    decreases d, 0
  {
    if Has(d, KOrdering) && d.fields[KOrdering].DArr? { CreatedEachFieldIsWellFormed(c, d.fields[KOrdering].items); }
  }

  lemma {:induction false} CreatedEachFieldIsWellFormed(c: Codecs, items: seq<Dyn>)
    ensures var r := CreateEachField(c, items); r.Some? ==> OrderingIsWellFormed(r.value)
    decreases items, 0
  {
    var r := CreateEachField(c, items);
    forall j | 0 <= j < |items| && r.Some? ensures WellFormed(r.value[j].expression) {
      assert CreateField(c, items[j]) == Some(r.value[j]);
      CreatedFieldIsWellFormed(c, items[j]);
    }
  }

  lemma {:induction false} CreatedFieldIsWellFormed(c: Codecs, d: Dyn)
    ensures CreateField(c, d).Some? ==> WellFormed(CreateField(c, d).value.expression)
    decreases d, 0
  {
    if Has(d, KExpression) { CreatedIsWellFormed(c, d.fields[KExpression]); }
  }
}
