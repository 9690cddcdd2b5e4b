/** Dynamic data, as plans are serialized to: objects, arrays and scalars. */
module Dynamic {
  import opened Wrappers

  /** The member names the serializers use. */
  datatype Key =
    | KKind | KName | KOperand | KOperands | KMin | KMax | KPredicate | KLabel | KDirection | KRepetition
    | KMode | KTerms | KOptional | KSelector | KCount
    | KType | KInputs | KValue | KInputName | KFunctionName | KForm | KAscending | KNullsFirst | KExpression | KOrder
    | KDistinct | KFilter | KOrdering | KSpecialAggregateKind | KFallback | KStartType | KStartValue | KEndType
    | KEndValue | KFrame | KIgnoreNulls | KPartitionKeys | KSignature | KBody | KSubquery

  datatype Dyn =
    | DNull
    | DBool(b: bool)
    | DInt(n: int)
    | DStr(s: string)
    | DArr(items: seq<Dyn>)
    | DObj(fields: map<Key, Dyn>)

  /** asString, asInt and asBool. They also convert between scalars, in ways the model leaves
      open; a scalar of the asked kind reads as itself. */
  datatype Reader = Reader(
    asString: Dyn -> Option<string>,
    asInt: Dyn -> Option<int>,
    asBool: Dyn -> Option<bool>)

  ghost predicate ValidReader(r: Reader) {
    && (forall s :: r.asString(DStr(s)) == Some(s))
    && (forall n :: r.asInt(DInt(n)) == Some(n))
    && (forall b :: r.asBool(DBool(b)) == Some(b))
  }

  predicate Has(d: Dyn, k: Key) {
    d.DObj? && k in d.fields
  }

  function StringAt(r: Reader, d: Dyn, k: Key): Option<string> {
    if Has(d, k) then r.asString(d.fields[k]) else None
  }

  function IntAt(r: Reader, d: Dyn, k: Key): Option<int> {
    if Has(d, k) then r.asInt(d.fields[k]) else None
  }

  function BoolAt(r: Reader, d: Dyn, k: Key): Option<bool> {
    if Has(d, k) then r.asBool(d.fields[k]) else None
  }

  /** Adds a member to an object when there is a value for it. */
  function WithMember(fields: map<Key, Dyn>, k: Key, value: Option<Dyn>): map<Key, Dyn> {
    match value case None => fields case Some(d) => fields[k := d]
  }

  /** Reads every item; fails when one does. */
  function Each<T>(items: seq<Dyn>, read: Dyn --> Option<T>): (r: Option<seq<T>>)
    requires forall i :: 0 <= i < |items| ==> read.requires(items[i])
    ensures r.Some? ==> |r.value| == |items| && forall i :: 0 <= i < |items| ==> read(items[i]) == Some(r.value[i])
    ensures r.None? ==> exists i :: 0 <= i < |items| && read(items[i]) == None
  {
    if items == [] then Some([])
    else
      var rest := Each(items[1..], read);
      match (read(items[0]), rest)
      case (Some(x), Some(xs)) => Some([x] + xs)
      case _ =>
        assert rest == None ==> exists i :: 0 <= i < |items[1..]| && read(items[1..][i]) == None && read(items[i + 1]) == None;
        None
  }
}
