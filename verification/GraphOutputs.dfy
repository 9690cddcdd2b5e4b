/** The outputs of a graph match: endGraphMatch replaces the properties and path lengths that the
    projected expressions read by columns of the graph match node. */
module GraphOutputs {
  import opened Wrappers
  import Allocation = NameAllocator

  datatype Op = Function(name: string) | Other(text: string)

  /** Untyped expressions: a root column, a field of an expression, or anything else that has
      inputs, constants included. */
  datatype PExpr =
    | Column(name: string)
    | Field(input: PExpr, name: string)
    | Node(op: Op, inputs: seq<PExpr>)

  /** What an expression reads of a match. */
  datatype Read = Property(pattern: string, property: string) | PathLength(pattern: string)

  /** A node output: a path length has an empty property. */
  datatype Output = Output(pattern: string, property: string)

  const PATH_LENGTH := "path_length"

  datatype Names = Names(elements: set<string>, paths: set<string>)

  function ReadOf(names: Names, e: PExpr): Option<Read> {
    match e
    case Field(Column(pattern), property) => if pattern in names.elements then Some(Property(pattern, property)) else None
    case Node(Function(f), inputs) =>
      if f == PATH_LENGTH && |inputs| == 1 && inputs[0].Column? && inputs[0].name in names.paths
      then Some(PathLength(inputs[0].name)) else None
    case _ => None
  }

  function OutputOf(r: Read): Output {
    match r case Property(pattern, property) => Output(pattern, property) case PathLength(pattern) => Output(pattern, "")
  }

  /** What the node computes for an output. */
  function Produced(o: Output): Read {
    if o.property == "" then PathLength(o.pattern) else Property(o.pattern, o.property)
  }

  function KeyOf(o: Output): string {
    o.pattern + "." + o.property
  }

  function DefaultName(o: Output): string {
    if o.property == "" then PATH_LENGTH else o.property
  }

  // ----- Meaning, over any values.

  datatype Engine<!V> = Engine(apply: (Op, seq<V>) -> Option<V>, field: (string, V) -> Option<V>)

  /** Evaluates an expression, given what each read gives. */
  function Eval<V>(engine: Engine<V>, names: Names, given: Read -> V, e: PExpr): Option<V>
    decreases e, 0
  {
    match ReadOf(names, e)
    case Some(r) => Some(given(r))
    case None =>
      match e
      case Column(_) => None
      case Field(input, name) =>
        (match Eval(engine, names, given, input) case None => None case Some(v) => engine.field(name, v))
      case Node(op, inputs) =>
        match EvalAll(engine, names, given, inputs, 0) case None => None case Some(vs) => engine.apply(op, vs)
  }

  function EvalAll<V>(engine: Engine<V>, names: Names, given: Read -> V, es: seq<PExpr>, i: nat): (r: Option<seq<V>>)
    requires i <= |es|
    ensures r.Some? ==> |r.value| == |es| - i
    decreases es, 0, |es| - i
  {
    if i == |es| then Some([])
    else
      match (Eval(engine, names, given, es[i]), EvalAll(engine, names, given, es, i + 1))
      case (Some(v), Some(vs)) => Some([v] + vs)
      case _ => None
  }

  /** Evaluates an expression over a row of named columns. */
  function EvalRow<V>(engine: Engine<V>, row: map<string, V>, e: PExpr): Option<V>
    decreases e, 0
  {
    match e
    case Column(name) => if name in row then Some(row[name]) else None
    case Field(input, name) =>
      (match EvalRow(engine, row, input) case None => None case Some(v) => engine.field(name, v))
    case Node(op, inputs) =>
      match EvalRowAll(engine, row, inputs, 0) case None => None case Some(vs) => engine.apply(op, vs)
  }

  function EvalRowAll<V>(engine: Engine<V>, row: map<string, V>, es: seq<PExpr>, i: nat): (r: Option<seq<V>>)
    requires i <= |es|
    ensures r.Some? ==> |r.value| == |es| - i
    decreases es, 0, |es| - i
  {
    if i == |es| then Some([])
    else
      match (EvalRow(engine, row, es[i]), EvalRowAll(engine, row, es, i + 1))
      case (Some(v), Some(vs)) => Some([v] + vs)
      case _ => None
  }

  ghost function ReadsIn(names: Names, e: PExpr): set<Read>
    decreases e, 0
  {
    match ReadOf(names, e)
    case Some(r) => {r}
    case None =>
      match e
      case Column(_) => {}
      case Field(input, _) => ReadsIn(names, input)
      case Node(_, inputs) => ReadsInAll(names, inputs, 0)
  }

  ghost function ReadsInAll(names: Names, es: seq<PExpr>, i: nat): set<Read>
    requires i <= |es|
    decreases es, 0, |es| - i
  {
    if i == |es| then {} else ReadsIn(names, es[i]) + ReadsInAll(names, es, i + 1)
  }

  /** Every root column is part of a read. */
  predicate Known(names: Names, e: PExpr) {
    ReadOf(names, e).Some? ||
    match e
    case Column(_) => false
    case Field(input, _) => Known(names, input)
    case Node(_, inputs) => forall i :: 0 <= i < |inputs| ==> Known(names, inputs[i])
  }

  // ----- The pass.

  datatype State = State(
    outputs: seq<Output>,
    columns: seq<string>,
    ids: map<string, string>,
    mapping: map<string, string>,
    names: Allocation.State)

  /** Adds an output to the node once, under a name from the hint; an empty hint is rejected. */
  ghost function AddOutput(s: State, o: Output, hint: string): Option<(State, string)> {
    if KeyOf(o) in s.ids then Some((s, s.ids[KeyOf(o)]))
    else if hint == "" then None
    else
      var id := Allocation.Chosen(s.names, hint);
      Some((State(s.outputs + [o], s.columns + [id], s.ids[KeyOf(o) := id], s.mapping, Allocation.Next(s.names, hint)), id))
  }

  ghost function Rewrite(names: Names, s: State, e: PExpr): Option<(State, PExpr)>
    decreases e, 1
  {
    match ReadOf(names, e)
    case Some(r) =>
      (match AddOutput(s, OutputOf(r), DefaultName(OutputOf(r)))
       case None => None
       case Some((t, id)) => Some((if id in t.mapping then t else t.(mapping := t.mapping[id := id]), Column(id))))
    case None =>
      match e
      case Column(_) => None
      case Field(input, name) =>
        (match Rewrite(names, s, input) case None => None case Some((t, x)) => Some((t, Field(x, name))))
      case Node(op, inputs) =>
        match RewriteAll(names, s, inputs, 0) case None => None case Some((t, es)) => Some((t, Node(op, es)))
  }

  ghost function RewriteAll(names: Names, s: State, es: seq<PExpr>, i: nat): (r: Option<(State, seq<PExpr>)>)
    requires i <= |es|
    ensures r.Some? ==> |r.value.1| == |es| - i
    decreases es, 0, |es| - i
  {
    if i == |es| then Some((s, []))
    else
      match Rewrite(names, s, es[i])
      case None => None
      case Some((t, e)) =>
        match RewriteAll(names, t, es, i + 1)
        case None => None
        case Some((u, rest)) => Some((u, [e] + rest))
  }

  /** A projected expression, with its alias. */
  datatype Item = Item(expr: PExpr, alias: Option<string>)

  /** The name the result column gets, if it has one. */
  function VisibleName(names: Names, item: Item): Option<string> {
    match (item.alias, ReadOf(names, item.expr))
    case (Some(a), _) => Some(a)
    case (None, Some(r)) => Some(DefaultName(OutputOf(r)))
    case (None, None) => None
  }

  /** Each item reads something distinct, under a distinct name: no projection is needed. */
  predicate IsDirect(names: Names, items: seq<Item>) {
    && (forall i :: 0 <= i < |items| ==> ReadOf(names, items[i].expr).Some?)
    && (forall i, j :: 0 <= i < j < |items| ==>
          && OutputOf(ReadOf(names, items[i].expr).value) != OutputOf(ReadOf(names, items[j].expr).value)
          && VisibleName(names, items[i]) != VisibleName(names, items[j]))
  }

  ghost function AddDirectly(names: Names, s: State, items: seq<Item>): Option<State>
    requires forall i :: 0 <= i < |items| ==> ReadOf(names, items[i].expr).Some?
  {
    if items == [] then Some(s)
    else
      var n := |items| - 1;
      match AddDirectly(names, s, items[..n])
      case None => None
      case Some(t) =>
        var name := VisibleName(names, items[n]).value;
        match AddOutput(t, OutputOf(ReadOf(names, items[n].expr).value), name)
        case None => None
        case Some((u, id)) => Some(u.(mapping := u.mapping[name := id]))
  }

  function Exprs(items: seq<Item>): (es: seq<PExpr>)
    ensures |es| == |items| && forall i :: 0 <= i < |items| ==> es[i] == items[i].expr
  {
    seq(|items|, i requires 0 <= i < |items| => items[i].expr)
  }

  datatype Outcome = Direct(state: State) | Projected(state: State, exprs: seq<PExpr>) | Rejected

  ghost function Finish(names: Names, taken: Allocation.State, items: seq<Item>): (r: Outcome)
    ensures r.Projected? ==> |r.exprs| == |items|
  {
    var s := State([], [], map[], map[], taken);
    if IsDirect(names, items) then
      match AddDirectly(names, s, items) case None => Rejected case Some(t) => Direct(t)
    else
      match RewriteAll(names, s, Exprs(items), 0) case None => Rejected case Some((t, es)) => Projected(t, es)
  }

  // ----- What holds of the outputs collected so far.

  ghost predicate ColumnsInv(s: State) {
    && |s.columns| == |s.outputs|
    && (forall i, j :: 0 <= i < j < |s.columns| ==> s.columns[i] != s.columns[j])
    && (forall i :: 0 <= i < |s.columns| ==> s.columns[i] in s.names.names)
  }

  ghost predicate KeysInv(s: State)
    requires |s.columns| == |s.outputs|
  {
    && (forall i :: 0 <= i < |s.outputs| ==> KeyOf(s.outputs[i]) in s.ids && s.ids[KeyOf(s.outputs[i])] == s.columns[i])
    && s.ids.Keys == Keys(s.outputs)
  }

  ghost function Keys(outputs: seq<Output>): set<string> {
    if outputs == [] then {} else Keys(outputs[..|outputs| - 1]) + {KeyOf(outputs[|outputs| - 1])}
  }

  lemma {:induction false} KeyAt(outputs: seq<Output>, k: string) returns (i: nat)
    requires k in Keys(outputs)
    ensures i < |outputs| && KeyOf(outputs[i]) == k
  {
    if KeyOf(outputs[|outputs| - 1]) == k { i := |outputs| - 1; } else { i := KeyAt(outputs[..|outputs| - 1], k); }
  }

  ghost predicate MappingInv(s: State) {
    forall n :: n in s.mapping ==> s.mapping[n] in s.columns
  }

  ghost predicate Inv(s: State) {
    ColumnsInv(s) && KeysInv(s) && MappingInv(s)
  }

  ghost predicate Extends(s: State, t: State) {
    && |s.outputs| <= |t.outputs| && t.outputs[..|s.outputs|] == s.outputs
    && |s.columns| <= |t.columns| && t.columns[..|s.columns|] == s.columns
    && (forall k :: k in s.ids ==> k in t.ids && t.ids[k] == s.ids[k])
    && (forall n :: n in s.mapping ==> n in t.mapping && t.mapping[n] == s.mapping[n])
  }

  /** Columns are visible under their own names. */
  ghost predicate Identity(s: State) {
    forall n :: n in s.mapping ==> s.mapping[n] == n
  }

  /** The node output with the key. */
  ghost function OutputAt(s: State, key: string): (o: Output)
    requires Inv(s) && key in s.ids
    ensures o in s.outputs && KeyOf(o) == key
  {
    assert exists i :: 0 <= i < |s.outputs| && KeyOf(s.outputs[i]) == key by { var i := KeyAt(s.outputs, key); }
    var i :| 0 <= i < |s.outputs| && KeyOf(s.outputs[i]) == key;
    s.outputs[i]
  }

  lemma {:induction false} OutputIsUnique(s: State, i: nat)
    requires Inv(s) && i < |s.outputs|
    ensures OutputAt(s, KeyOf(s.outputs[i])) == s.outputs[i]
  {
  }

  ghost function ColumnValue<V>(given: Read -> V, s: State, id: string): V
    requires Inv(s) && id in s.columns
  {
    var i :| 0 <= i < |s.columns| && s.columns[i] == id;
    given(Produced(s.outputs[i]))
  }

  ghost function Row<V>(given: Read -> V, s: State): map<string, V>
    requires Inv(s)
  {
    map n | n in s.mapping :: ColumnValue(given, s, s.mapping[n])
  }

  /** What a read gives after the pass: the value of the node output its key leads to. */
  ghost function Through<V>(given: Read -> V, s: State): Read -> V
    requires Inv(s)
  {
    (r: Read) =>
      if Inv(s) && KeyOf(OutputOf(r)) in s.ids then given(Produced(OutputAt(s, KeyOf(OutputOf(r))))) else given(r)
  }

  lemma {:induction false} ColumnOfKey<V>(given: Read -> V, s: State, r: Read)
    requires Inv(s) && KeyOf(OutputOf(r)) in s.ids
    ensures s.ids[KeyOf(OutputOf(r))] in s.columns
    ensures ColumnValue(given, s, s.ids[KeyOf(OutputOf(r))]) == Through(given, s)(r)
  {
    var i := KeyAt(s.outputs, KeyOf(OutputOf(r)));
    OutputIsUnique(s, i);
    assert s.columns[i] == s.ids[KeyOf(OutputOf(r))];
  }

  lemma {:induction false} AddOutputSound(s: State, o: Output, hint: string)
    requires Inv(s) && AddOutput(s, o, hint).Some?
    ensures var (t, id) := AddOutput(s, o, hint).value;
            && Inv(t) && Extends(s, t) && t.mapping == s.mapping
            && KeyOf(o) in t.ids && t.ids[KeyOf(o)] == id && id in t.columns
            && (KeyOf(o) !in s.ids ==> t.outputs == s.outputs + [o])
            && (KeyOf(o) in s.ids ==> t == s)
  {
    if KeyOf(o) in s.ids {
      var i := KeyAt(s.outputs, KeyOf(o));
      assert s.columns[i] == s.ids[KeyOf(o)];
    } else {
      NewOutputSound(s, o, Allocation.Chosen(s.names, hint), Allocation.Next(s.names, hint));
    }
  }

  lemma {:induction false} NewOutputSound(s: State, o: Output, id: string, names: Allocation.State)
    requires Inv(s) && KeyOf(o) !in s.ids && id !in s.names.names && names.names == s.names.names + {id}
    ensures var t := State(s.outputs + [o], s.columns + [id], s.ids[KeyOf(o) := id], s.mapping, names);
            Inv(t) && Extends(s, t) && id in t.columns
  {
    var t := State(s.outputs + [o], s.columns + [id], s.ids[KeyOf(o) := id], s.mapping, names);
    assert t.columns[|s.columns|] == id;
    NewColumn(s, t, id);
    NewKey(s, t, o, id);
    forall m | m in t.mapping ensures t.mapping[m] in t.columns { assert s.mapping[m] in s.columns; }
  }

  lemma {:induction false} NewColumn(s: State, t: State, id: string)
    requires ColumnsInv(s) && id !in s.names.names && t.names.names == s.names.names + {id}
    requires t.columns == s.columns + [id] && |t.outputs| == |s.outputs| + 1
    ensures ColumnsInv(t)
  {
    var n := |s.columns|;
    forall i | 0 <= i < |t.columns| ensures t.columns[i] in t.names.names { assert i < n ==> t.columns[i] == s.columns[i]; }
    forall i, j | 0 <= i < j < |t.columns| ensures t.columns[i] != t.columns[j] {
      assert t.columns[i] == s.columns[i] && s.columns[i] in s.names.names;
      assert j < n ==> t.columns[j] == s.columns[j];
    }
  }

  lemma {:induction false} NewKey(s: State, t: State, o: Output, id: string)
    requires ColumnsInv(s) && KeysInv(s) && KeyOf(o) !in s.ids
    requires t.outputs == s.outputs + [o] && t.columns == s.columns + [id] && t.ids == s.ids[KeyOf(o) := id]
    ensures KeysInv(t)
  {
    var n := |s.outputs|;
    assert t.outputs[..n] == s.outputs;
    forall i | 0 <= i < |t.outputs| ensures KeyOf(t.outputs[i]) in t.ids && t.ids[KeyOf(t.outputs[i])] == t.columns[i] {
      if i < n { assert t.outputs[i] == s.outputs[i] && t.columns[i] == s.columns[i]; }
    }
  }

  lemma {:induction false} ExtendsTrans(s: State, t: State, u: State)
    requires Extends(s, t) && Extends(t, u)
    ensures Extends(s, u)
  {
    assert u.outputs[..|s.outputs|] == u.outputs[..|t.outputs|][..|s.outputs|];
    assert u.columns[..|s.columns|] == u.columns[..|t.columns|][..|s.columns|];
  }

  /** The reads of an expression have node outputs, visible as columns. */
  ghost predicate Covers(s: State, wanted: set<Read>) {
    forall r :: r in wanted ==> KeyOf(OutputOf(r)) in s.ids && s.ids[KeyOf(OutputOf(r))] in s.mapping
  }

  lemma {:induction false} ShowColumn(s: State, id: string)
    requires Inv(s) && Identity(s) && id in s.columns
    ensures var t := if id in s.mapping then s else s.(mapping := s.mapping[id := id]);
            Inv(t) && Identity(t) && Extends(s, t) && id in t.mapping
  {
  }

  /** From one state to a later one that covers some reads. */
  ghost predicate Sound(s: State, t: State, wanted: set<Read>) {
    Inv(t) && Identity(t) && Extends(s, t) && Covers(t, wanted)
  }

  lemma {:induction false} SoundTrans(s: State, t: State, u: State, a: set<Read>, b: set<Read>)
    requires Sound(s, t, a) && Sound(t, u, b)
    ensures Sound(s, u, a + b)
  {
    ExtendsTrans(s, t, u);
  }

  lemma {:induction false} ReadSound(names: Names, s: State, e: PExpr)
    requires Inv(s) && Identity(s) && ReadOf(names, e).Some? && Rewrite(names, s, e).Some?
    ensures Sound(s, Rewrite(names, s, e).value.0, ReadsIn(names, e))
  {
    var r := ReadOf(names, e).value;
    var o := OutputOf(r);
    AddOutputSound(s, o, DefaultName(o));
    var (t, id) := AddOutput(s, o, DefaultName(o)).value;
    ShowSound(s, t, id, r);
  }

  lemma {:induction false} ShowSound(s: State, t: State, id: string, r: Read)
    requires Identity(s) && Inv(t) && Extends(s, t) && t.mapping == s.mapping
    requires KeyOf(OutputOf(r)) in t.ids && t.ids[KeyOf(OutputOf(r))] == id && id in t.columns
    ensures Sound(s, if id in t.mapping then t else t.(mapping := t.mapping[id := id]), {r})
  {
    ShowColumn(t, id);
    var u := if id in t.mapping then t else t.(mapping := t.mapping[id := id]);
    ExtendsTrans(s, t, u);
  }

  lemma {:induction false} RewriteSound(names: Names, s: State, e: PExpr)
    requires Inv(s) && Identity(s) && Rewrite(names, s, e).Some?
    ensures Sound(s, Rewrite(names, s, e).value.0, ReadsIn(names, e))
    decreases e, 1
  {
    if ReadOf(names, e).Some? {
      ReadSound(names, s, e);
    } else {
      match e
      case Field(input, _) => RewriteSound(names, s, input);
      case Node(_, inputs) => RewriteAllSound(names, s, inputs, 0);
    }
  }

  lemma {:induction false} RewriteAllSound(names: Names, s: State, es: seq<PExpr>, i: nat)
    requires Inv(s) && Identity(s) && i <= |es| && RewriteAll(names, s, es, i).Some?
    ensures Sound(s, RewriteAll(names, s, es, i).value.0, ReadsInAll(names, es, i))
    decreases es, 0, |es| - i
  {
    if i == |es| {
      assert Extends(s, s);
    } else {
      RewriteSound(names, s, es[i]);
      var t := Rewrite(names, s, es[i]).value.0;
      RewriteAllSound(names, t, es, i + 1);
      SoundTrans(s, t, RewriteAll(names, s, es, i).value.0, ReadsIn(names, es[i]), ReadsInAll(names, es, i + 1));
    }
  }

  /** A rewritten expression over the node's row gives what the original gives when every read
      goes through its key. */
  lemma {:induction false} RewriteEvaluates<V>(engine: Engine<V>, given: Read -> V, names: Names, s: State, e: PExpr, u: State)
    requires Inv(s) && Identity(s) && Rewrite(names, s, e).Some?
    requires Inv(u) && Identity(u) && Extends(Rewrite(names, s, e).value.0, u)
    ensures EvalRow(engine, Row(given, u), Rewrite(names, s, e).value.1) == Eval(engine, names, Through(given, u), e)
    decreases e, 1
  {
    RewriteSound(names, s, e);
    match ReadOf(names, e)
    case Some(r) =>
      ColumnOfKey(given, u, r);
    case None =>
      match e
      case Field(input, _) => RewriteEvaluates(engine, given, names, s, input, u);
      case Node(_, inputs) => RewriteAllEvaluates(engine, given, names, s, inputs, 0, u);
  }

  lemma {:induction false} RewriteAllEvaluates<V>(
    engine: Engine<V>, given: Read -> V, names: Names, s: State, es: seq<PExpr>, i: nat, u: State)
    requires Inv(s) && Identity(s) && i <= |es| && RewriteAll(names, s, es, i).Some?
    requires Inv(u) && Identity(u) && Extends(RewriteAll(names, s, es, i).value.0, u)
    ensures EvalRowAll(engine, Row(given, u), RewriteAll(names, s, es, i).value.1, 0)
         == EvalAll(engine, names, Through(given, u), es, i)
    ensures forall j :: i <= j < |es| ==>
      EvalRow(engine, Row(given, u), RewriteAll(names, s, es, i).value.1[j - i])
      == Eval(engine, names, Through(given, u), es[j])
    decreases es, 0, |es| - i
  {
    if i < |es| {
      var (t, e) := Rewrite(names, s, es[i]).value;
      var (v, rest) := RewriteAll(names, t, es, i + 1).value;
      RewriteStep(names, s, es, i, u);
      RewriteEvaluates(engine, given, names, s, es[i], u);
      RewriteAllEvaluates(engine, given, names, t, es, i + 1, u);
      ConsEvaluates(engine, names, Through(given, u), Row(given, u), es, i, e, rest);
    }
  }

  /** Rewriting one input and then the rest, each leading on to the final state. */
  lemma {:induction false} RewriteStep(names: Names, s: State, es: seq<PExpr>, i: nat, u: State)
    requires Inv(s) && Identity(s) && i < |es| && RewriteAll(names, s, es, i).Some?
    requires Extends(RewriteAll(names, s, es, i).value.0, u)
    ensures Rewrite(names, s, es[i]).Some?
    ensures var (t, e) := Rewrite(names, s, es[i]).value;
            && Inv(t) && Identity(t) && Extends(t, u) && RewriteAll(names, t, es, i + 1).Some?
            && RewriteAll(names, s, es, i).value ==
               (RewriteAll(names, t, es, i + 1).value.0, [e] + RewriteAll(names, t, es, i + 1).value.1)
  {
    var (t, e) := Rewrite(names, s, es[i]).value;
    var (v, rest) := RewriteAll(names, t, es, i + 1).value;
    RewriteSound(names, s, es[i]);
    RewriteAllSound(names, t, es, i + 1);
    ExtendsTrans(t, v, u);
  }

  lemma {:induction false} ConsEvaluates<V>(
    engine: Engine<V>, names: Names, given: Read -> V, row: map<string, V>, es: seq<PExpr>, i: nat, e: PExpr, rest: seq<PExpr>)
    requires i < |es| && |rest| == |es| - i - 1
    requires EvalRow(engine, row, e) == Eval(engine, names, given, es[i])
    requires EvalRowAll(engine, row, rest, 0) == EvalAll(engine, names, given, es, i + 1)
    requires forall j :: i < j < |es| ==> EvalRow(engine, row, rest[j - i - 1]) == Eval(engine, names, given, es[j])
    ensures EvalRowAll(engine, row, [e] + rest, 0) == EvalAll(engine, names, given, es, i)
    ensures forall j :: i <= j < |es| ==> EvalRow(engine, row, ([e] + rest)[j - i]) == Eval(engine, names, given, es[j])
  {
    EvalRowAllTail(engine, row, e, rest, 0);
  }

  lemma {:induction false} EvalRowAllTail<V>(engine: Engine<V>, row: map<string, V>, e: PExpr, rest: seq<PExpr>, i: nat)
    requires i <= |rest|
    ensures EvalRowAll(engine, row, [e] + rest, i + 1) == EvalRowAll(engine, row, rest, i)
    decreases |rest| - i
  {
    if i < |rest| { EvalRowAllTail(engine, row, e, rest, i + 1); }
  }

  // ----- Where the outputs come from.

  ghost function OutputsOf(wanted: set<Read>): set<Output> {
    set r | r in wanted :: OutputOf(r)
  }

  ghost predicate FromReads(s: State, t: State, wanted: set<Read>) {
    forall o :: o in t.outputs ==> o in s.outputs || o in OutputsOf(wanted)
  }

  lemma {:induction false} RewriteOutputs(names: Names, s: State, e: PExpr)
    requires Rewrite(names, s, e).Some?
    ensures FromReads(s, Rewrite(names, s, e).value.0, ReadsIn(names, e))
    decreases e, 1
  {
    match ReadOf(names, e)
    case Some(r) =>
      assert OutputOf(r) in OutputsOf({r});
    case None =>
      match e
      case Field(input, _) => RewriteOutputs(names, s, input);
      case Node(_, inputs) => RewriteAllOutputs(names, s, inputs, 0);
  }

  lemma {:induction false} RewriteAllOutputs(names: Names, s: State, es: seq<PExpr>, i: nat)
    requires i <= |es| && RewriteAll(names, s, es, i).Some?
    ensures FromReads(s, RewriteAll(names, s, es, i).value.0, ReadsInAll(names, es, i))
    decreases es, 0, |es| - i
  {
    if i < |es| {
      RewriteOutputs(names, s, es[i]);
      RewriteAllOutputs(names, Rewrite(names, s, es[i]).value.0, es, i + 1);
    }
  }

  /** Rewriting fails on exactly the expressions with a root column outside every read. */
  lemma {:induction false} RewritesKnown(names: Names, s: State, e: PExpr)
    ensures Rewrite(names, s, e).Some? <==> Known(names, e)
    decreases e, 1
  {
    if ReadOf(names, e).None? {
      match e
      case Column(_) =>
      case Field(input, _) => RewritesKnown(names, s, input);
      case Node(_, inputs) => RewritesAllKnown(names, s, inputs, 0);
    }
  }

  lemma {:induction false} RewritesAllKnown(names: Names, s: State, es: seq<PExpr>, i: nat)
    requires i <= |es|
    ensures RewriteAll(names, s, es, i).Some? <==> forall j :: i <= j < |es| ==> Known(names, es[j])
    decreases es, 0, |es| - i
  {
    if i < |es| {
      RewritesKnown(names, s, es[i]);
      if Rewrite(names, s, es[i]).Some? { RewritesAllKnown(names, Rewrite(names, s, es[i]).value.0, es, i + 1); }
    }
  }

  /** A projection that cannot be direct is rejected exactly when it names an unknown pattern. */
  lemma {:induction false} RejectsUnknownNames(names: Names, taken: Allocation.State, items: seq<Item>)
    requires !IsDirect(names, items)
    ensures Finish(names, taken, items).Rejected? <==> exists i :: 0 <= i < |items| && !Known(names, items[i].expr)
  {
    RewritesAllKnown(names, State([], [], map[], map[], taken), Exprs(items), 0);
  }

  // ----- Direct outputs.

  ghost predicate Shown(names: Names, t: State, item: Item) {
    && ReadOf(names, item.expr).Some?
    && VisibleName(names, item).value in t.mapping
    && KeyOf(OutputOf(ReadOf(names, item.expr).value)) in t.ids
    && t.mapping[VisibleName(names, item).value] == t.ids[KeyOf(OutputOf(ReadOf(names, item.expr).value))]
  }

  ghost predicate AllShown(names: Names, t: State, items: seq<Item>) {
    forall i :: 0 <= i < |items| ==> Shown(names, t, items[i])
  }

  ghost predicate DirectSound(names: Names, t: State, items: seq<Item>) {
    && AllShown(names, t, items)
    && t.mapping.Keys == VisibleNames(names, items)
    && (forall o :: o in t.outputs ==> o in OutputsOf(ReadsOfItems(names, items)))
  }

  ghost function VisibleNames(names: Names, items: seq<Item>): (r: set<string>)
    ensures forall n :: n in r ==> exists i :: 0 <= i < |items| && VisibleName(names, items[i]) == Some(n)
  {
    if items == [] then {}
    else
      var k := |items| - 1;
      var earlier := VisibleNames(names, items[..k]);
      assert forall n :: n in earlier ==>
        exists i :: 0 <= i < k && VisibleName(names, items[..k][i]) == Some(n) && VisibleName(names, items[i]) == Some(n);
      match VisibleName(names, items[k]) case None => earlier case Some(n) => earlier + {n}
  }

  ghost function ReadsOfItems(names: Names, items: seq<Item>): (wanted: set<Read>)
  {
    if items == [] then {}
    else ReadsOfItems(names, items[..|items| - 1]) + ReadsIn(names, items[|items| - 1].expr)
  }

  lemma {:induction false} DirectIsSound(names: Names, taken: Allocation.State, items: seq<Item>)
    requires IsDirect(names, items)
    requires AddDirectly(names, State([], [], map[], map[], taken), items).Some?
    ensures Inv(AddDirectly(names, State([], [], map[], map[], taken), items).value)
    ensures DirectSound(names, AddDirectly(names, State([], [], map[], map[], taken), items).value, items)
  {
    if items != [] {
      DirectPrefix(names, items, |items| - 1);
      DirectIsSound(names, taken, items[..|items| - 1]);
      LastDirectly(names, State([], [], map[], map[], taken), items);
    }
  }

  /** The last item, once the others are shown. */
  lemma {:induction false} LastDirectly(names: Names, first: State, items: seq<Item>)
    requires IsDirect(names, items) && items != [] && AddDirectly(names, first, items).Some?
    requires var t := AddDirectly(names, first, items[..|items| - 1]);
             t.Some? && Inv(t.value) && DirectSound(names, t.value, items[..|items| - 1])
    ensures Inv(AddDirectly(names, first, items).value) && DirectSound(names, AddDirectly(names, first, items).value, items)
  {
    var earlier, last := items[..|items| - 1], items[|items| - 1];
    var t := AddDirectly(names, first, earlier).value;
    LastNameIsNew(names, t, items);
    DirectlyUnfolds(names, first, items);
    AddOneDirectly(names, t, earlier, last);
    EarlierAndLast(items);
  }

  lemma {:induction false} EarlierAndLast(items: seq<Item>)
    requires items != []
    ensures items[..|items| - 1] + [items[|items| - 1]] == items
  {
  }

  lemma {:induction false} LastNameIsNew(names: Names, t: State, items: seq<Item>)
    requires items != [] && IsDirect(names, items) && DirectSound(names, t, items[..|items| - 1])
    ensures ReadOf(names, items[|items| - 1].expr).Some? && VisibleName(names, items[|items| - 1]).value !in t.mapping
  {
    NameIsNew(names, items);
  }

  lemma {:induction false} DirectlyUnfolds(names: Names, first: State, items: seq<Item>)
    requires items != [] && (forall i :: 0 <= i < |items| ==> ReadOf(names, items[i].expr).Some?)
    requires AddDirectly(names, first, items).Some?
    ensures var n := |items| - 1;
            var name, t := VisibleName(names, items[n]).value, AddDirectly(names, first, items[..n]);
            && t.Some? && var added := AddOutput(t.value, OutputOf(ReadOf(names, items[n].expr).value), name);
            && added.Some? && AddDirectly(names, first, items).value
                              == added.value.0.(mapping := added.value.0.mapping[name := added.value.1])
  {
  }

  lemma {:induction false} DirectPrefix(names: Names, items: seq<Item>, n: nat)
    requires n <= |items| && IsDirect(names, items)
    ensures IsDirect(names, items[..n])
  {
  }

  lemma {:induction false} AddOneDirectly(names: Names, t: State, earlier: seq<Item>, last: Item)
    requires Inv(t) && DirectSound(names, t, earlier) && ReadOf(names, last.expr).Some?
    requires VisibleName(names, last).value !in t.mapping
    requires AddOutput(t, OutputOf(ReadOf(names, last.expr).value), VisibleName(names, last).value).Some?
    ensures var name := VisibleName(names, last).value;
            var (u, id) := AddOutput(t, OutputOf(ReadOf(names, last.expr).value), name).value;
            var v := u.(mapping := u.mapping[name := id]);
            Inv(v) && DirectSound(names, v, earlier + [last])
  {
    var name := VisibleName(names, last).value;
    var o := OutputOf(ReadOf(names, last.expr).value);
    AddOutputSound(t, o, name);
    var (u, id) := AddOutput(t, o, name).value;
    ShowInv(u, name, id);
    DirectStep(names, t, u, id, earlier, last, name, o);
  }

  lemma {:induction false} DirectStep(
    names: Names, t: State, u: State, id: string, earlier: seq<Item>, last: Item, name: string, o: Output)
    requires DirectSound(names, t, earlier) && name !in t.mapping && VisibleName(names, last) == Some(name)
    requires ReadOf(names, last.expr).Some? && o == OutputOf(ReadOf(names, last.expr).value)
    requires (forall k :: k in t.ids ==> k in u.ids && u.ids[k] == t.ids[k]) && u.mapping == t.mapping
    requires KeyOf(o) in u.ids && u.ids[KeyOf(o)] == id && (u.outputs == t.outputs || u.outputs == t.outputs + [o])
    ensures DirectSound(names, u.(mapping := u.mapping[name := id]), earlier + [last])
  {
    var v := u.(mapping := u.mapping[name := id]);
    assert (earlier + [last])[..|earlier|] == earlier;
    assert v.mapping.Keys == t.mapping.Keys + {name};
    LastShown(names, u, id, last);
    MoreShown(names, t, v, earlier, last, name);
    MoreOutputs(names, t, u, earlier, last);
  }

  lemma {:induction false} ShowInv(u: State, name: string, id: string)
    requires Inv(u) && id in u.columns
    ensures Inv(u.(mapping := u.mapping[name := id]))
  {
  }

  lemma {:induction false} LastShown(names: Names, u: State, id: string, last: Item)
    requires ReadOf(names, last.expr).Some?
    requires var o := OutputOf(ReadOf(names, last.expr).value); KeyOf(o) in u.ids && u.ids[KeyOf(o)] == id
    ensures Shown(names, u.(mapping := u.mapping[VisibleName(names, last).value := id]), last)
  {
  }

  lemma {:induction false} NameIsNew(names: Names, items: seq<Item>)
    requires items != [] && IsDirect(names, items)
    ensures VisibleName(names, items[|items| - 1]).value !in VisibleNames(names, items[..|items| - 1])
  {
  }

  lemma {:induction false} MoreShown(names: Names, t: State, v: State, earlier: seq<Item>, last: Item, name: string)
    requires AllShown(names, t, earlier) && Shown(names, v, last)
    requires name !in t.mapping
    requires forall k :: k in t.ids ==> k in v.ids && v.ids[k] == t.ids[k]
    requires forall n :: n in t.mapping ==> n in v.mapping && v.mapping[n] == t.mapping[n]
    ensures AllShown(names, v, earlier + [last])
  {
    forall i | 0 <= i < |earlier| + 1 ensures Shown(names, v, (earlier + [last])[i]) {
      if i < |earlier| { assert Shown(names, t, earlier[i]); }
    }
  }

  lemma {:induction false} MoreOutputs(names: Names, t: State, u: State, earlier: seq<Item>, last: Item)
    requires ReadOf(names, last.expr).Some?
    requires forall o :: o in t.outputs ==> o in OutputsOf(ReadsOfItems(names, earlier))
    requires var o := OutputOf(ReadOf(names, last.expr).value); u.outputs == t.outputs || u.outputs == t.outputs + [o]
    ensures forall o :: o in u.outputs ==> o in OutputsOf(ReadsOfItems(names, earlier + [last]))
  {
    assert (earlier + [last])[..|earlier|] == earlier;
    var r := ReadOf(names, last.expr).value;
    assert r in ReadsOfItems(names, earlier + [last]) && OutputOf(r) in OutputsOf(ReadsOfItems(names, earlier + [last]));
    assert forall q :: q in ReadsOfItems(names, earlier) ==> q in ReadsOfItems(names, earlier + [last]);
  }

  // ----- The whole pass.

  lemma {:induction false} ReadsInAllMembers(names: Names, es: seq<PExpr>, i: nat, r: Read)
    requires i <= |es|
    ensures r in ReadsInAll(names, es, i) <==> exists j :: i <= j < |es| && r in ReadsIn(names, es[j])
    decreases |es| - i
  {
    if i < |es| { ReadsInAllMembers(names, es, i + 1, r); }
  }

  lemma {:induction false} ReadsOfItemsMembers(names: Names, items: seq<Item>, r: Read)
    ensures r in ReadsOfItems(names, items) <==> exists j :: 0 <= j < |items| && r in ReadsIn(names, items[j].expr)
  {
    if items != [] {
      var n := |items| - 1;
      ReadsOfItemsMembers(names, items[..n], r);
      if r in ReadsOfItems(names, items[..n]) {
        var j :| 0 <= j < n && r in ReadsIn(names, items[..n][j].expr);
        assert items[j] == items[..n][j];
      }
      if j :| 0 <= j < |items| && r in ReadsIn(names, items[j].expr) {
        assert j < n ==> items[..n][j] == items[j];
      }
    }
  }

  lemma {:induction false} ReadsAgree(names: Names, items: seq<Item>)
    ensures ReadsInAll(names, Exprs(items), 0) == ReadsOfItems(names, items)
  {
    forall r: Read ensures r in ReadsInAll(names, Exprs(items), 0) <==> r in ReadsOfItems(names, items) {
      ReadsInAllMembers(names, Exprs(items), 0, r);
      ReadsOfItemsMembers(names, items, r);
      if j :| 0 <= j < |items| && r in ReadsIn(names, items[j].expr) { assert r in ReadsIn(names, Exprs(items)[j]); }
    }
  }

  /** The node outputs stand for the reads: every read leads to one, and each comes from one. */
  ghost predicate Represents(s: State, wanted: set<Read>) {
    && Inv(s)
    && (forall r :: r in wanted ==> KeyOf(OutputOf(r)) in s.ids)
    && (forall o :: o in s.outputs ==> o in OutputsOf(wanted))
  }

  lemma {:induction false} FinishRepresents(names: Names, taken: Allocation.State, items: seq<Item>)
    requires !Finish(names, taken, items).Rejected?
    ensures Represents(Finish(names, taken, items).state, ReadsOfItems(names, items))
  {
    var s := State([], [], map[], map[], taken);
    if IsDirect(names, items) {
      DirectIsSound(names, taken, items);
      var t := AddDirectly(names, s, items).value;
      forall r | r in ReadsOfItems(names, items) ensures KeyOf(OutputOf(r)) in t.ids {
        ReadsOfItemsMembers(names, items, r);
        var j :| 0 <= j < |items| && r in ReadsIn(names, items[j].expr);
        assert Shown(names, t, items[j]);
      }
    } else {
      RewriteAllSound(names, s, Exprs(items), 0);
      RewriteAllOutputs(names, s, Exprs(items), 0);
      ReadsAgree(names, items);
    }
  }

  /** What the i-th result column holds. */
  ghost function Result<V>(engine: Engine<V>, given: Read -> V, names: Names, taken: Allocation.State, items: seq<Item>, i: nat): Option<V>
    requires i < |items| && !Finish(names, taken, items).Rejected?
  {
    FinishRepresents(names, taken, items);
    match Finish(names, taken, items)
    case Direct(t) =>
      var name := VisibleName(names, items[i]);
      if name.Some? && name.value in Row(given, t) then Some(Row(given, t)[name.value]) else None
    case Projected(t, es) => EvalRow(engine, Row(given, t), es[i])
    case Rejected => None
  }

  lemma {:induction false} ResultGoesThrough<V>(
    engine: Engine<V>, given: Read -> V, names: Names, taken: Allocation.State, items: seq<Item>, i: nat)
    requires i < |items| && !Finish(names, taken, items).Rejected?
    ensures Represents(Finish(names, taken, items).state, ReadsOfItems(names, items))
    ensures Result(engine, given, names, taken, items, i)
         == Eval(engine, names, Through(given, Finish(names, taken, items).state), items[i].expr)
  {
    FinishRepresents(names, taken, items);
    var s := State([], [], map[], map[], taken);
    if IsDirect(names, items) {
      DirectIsSound(names, taken, items);
      var t := AddDirectly(names, s, items).value;
      assert Shown(names, t, items[i]);
      ColumnOfKey(given, t, ReadOf(names, items[i].expr).value);
    } else {
      var t := RewriteAll(names, s, Exprs(items), 0).value.0;
      RewriteAllSound(names, s, Exprs(items), 0);
      assert Extends(t, t);
      RewriteAllEvaluates(engine, given, names, s, Exprs(items), 0, t);
    }
  }

  lemma {:induction false} EvalAgrees<V>(engine: Engine<V>, names: Names, f: Read -> V, g: Read -> V, e: PExpr)
    requires forall r :: r in ReadsIn(names, e) ==> f(r) == g(r)
    ensures Eval(engine, names, f, e) == Eval(engine, names, g, e)
    decreases e, 0
  {
    if ReadOf(names, e).None? {
      match e
      case Column(_) =>
      case Field(input, _) => EvalAgrees(engine, names, f, g, input);
      case Node(_, inputs) => EvalAllAgrees(engine, names, f, g, inputs, 0);
    }
  }

  lemma {:induction false} EvalAllAgrees<V>(engine: Engine<V>, names: Names, f: Read -> V, g: Read -> V, es: seq<PExpr>, i: nat)
    requires i <= |es| && forall r :: r in ReadsInAll(names, es, i) ==> f(r) == g(r)
    ensures EvalAll(engine, names, f, es, i) == EvalAll(engine, names, g, es, i)
    decreases es, 0, |es| - i
  {
    if i < |es| {
      EvalAgrees(engine, names, f, g, es[i]);
      EvalAllAgrees(engine, names, f, g, es, i + 1);
    }
  }

  /** Distinct reads have distinct keys, and no property is nameless. */
  ghost predicate KeysSeparate(wanted: set<Read>) {
    && (forall r, q :: r in wanted && q in wanted && KeyOf(OutputOf(r)) == KeyOf(OutputOf(q)) ==> r == q)
    && (forall r :: r in wanted ==> Produced(OutputOf(r)) == r)
  }

  /** Then every projected expression gives over the node's row what it gives over the match,
      on the direct and on the rewritten path, whatever values and operators mean. */
  lemma {:induction false} OutputsPreserved<V>(
    engine: Engine<V>, given: Read -> V, names: Names, taken: Allocation.State, items: seq<Item>, i: nat)
    requires i < |items| && !Finish(names, taken, items).Rejected?
    requires KeysSeparate(ReadsOfItems(names, items))
    ensures Result(engine, given, names, taken, items, i) == Eval(engine, names, given, items[i].expr)
  {
    ResultGoesThrough(engine, given, names, taken, items, i);
    var t := Finish(names, taken, items).state;
    forall r | r in ReadsIn(names, items[i].expr) ensures Through(given, t)(r) == given(r) {
      ReadsOfItemsMembers(names, items, r);
      ThroughSeparateKeys(given, t, ReadsOfItems(names, items), r);
    }
    EvalAgrees(engine, names, Through(given, t), given, items[i].expr);
  }

  lemma {:induction false} ThroughSeparateKeys<V>(given: Read -> V, t: State, wanted: set<Read>, r: Read)
    requires Represents(t, wanted) && KeysSeparate(wanted) && r in wanted
    ensures Through(given, t)(r) == given(r)
  {
    var o := OutputAt(t, KeyOf(OutputOf(r)));
    var q :| q in wanted && OutputOf(q) == o;
  }

  /** The name a result column should have: its alias, else the property, else path_length. */
  function Label(item: Item): string {
    match (item.alias, item.expr)
    case (Some(alias), _) => alias
    case (None, Field(_, property)) => if property == "" then "path_length" else property
    case (None, _) => "path_length"
  }

  /** What an item reads, if it is the property of an element or the length of a path. */
  function ReadShape(names: Names, e: PExpr): Option<(string, string)> {
    match e
    case Field(Column(pattern), property) => if pattern in names.elements then Some((pattern, property)) else None
    case Node(Function(f), inputs) =>
      if f == "path_length" && |inputs| == 1 && inputs[0].Column? && inputs[0].name in names.paths
      then Some((inputs[0].name, "")) else None
    case _ => None
  }

  ghost predicate ReadDistinctly(names: Names, items: seq<Item>) {
    && (forall i :: 0 <= i < |items| ==> ReadShape(names, items[i].expr).Some?)
    && (forall i, j :: 0 <= i < j < |items| ==>
          ReadShape(names, items[i].expr) != ReadShape(names, items[j].expr) && Label(items[i]) != Label(items[j]))
  }

  lemma {:induction false} ShapeOfRead(names: Names, item: Item)
    ensures ReadShape(names, item.expr) ==
            match ReadOf(names, item.expr) case None => None case Some(r) => Some((OutputOf(r).pattern, OutputOf(r).property))
    ensures ReadOf(names, item.expr).Some? ==> VisibleName(names, item) == Some(Label(item))
  {
  }

  /** The node's own columns are the result only if every item reads and no two read the same or have
      one label; and then they are, unless a label is empty. */
  lemma {:induction false} DirectExactly(names: Names, taken: Allocation.State, items: seq<Item>)
    ensures Finish(names, taken, items).Direct? ==> ReadDistinctly(names, items)
    ensures ReadDistinctly(names, items) && (forall i :: 0 <= i < |items| ==> Label(items[i]) != "") ==>
              Finish(names, taken, items).Direct?
    ensures ReadDistinctly(names, items) ==> !Finish(names, taken, items).Projected?
  {
    forall i | 0 <= i < |items|
      ensures ReadShape(names, items[i].expr) ==
              match ReadOf(names, items[i].expr) case None => None case Some(r) => Some((OutputOf(r).pattern, OutputOf(r).property))
      ensures ReadOf(names, items[i].expr).Some? ==> VisibleName(names, items[i]) == Some(Label(items[i]))
    {
      ShapeOfRead(names, items[i]);
    }
    if IsDirect(names, items) && forall i :: 0 <= i < |items| ==> Label(items[i]) != "" {
      LabelsAdded(names, State([], [], map[], map[], taken), items);
    }
  }

  lemma {:induction false} LabelsAdded(names: Names, s: State, items: seq<Item>)
    requires forall i :: 0 <= i < |items| ==> ReadOf(names, items[i].expr).Some? && Label(items[i]) != ""
    ensures AddDirectly(names, s, items).Some?
  {
    if items != [] {
      LabelsAdded(names, s, items[..|items| - 1]);
      ShapeOfRead(names, items[|items| - 1]);
    }
  }

  /** The row's column of the item's label holds what the item reads: the property of an element, or
      the length of a path. */
  ghost predicate Labelled<V>(given: Read -> V, names: Names, row: map<string, V>, item: Item) {
    Label(item) in row &&
    match item.expr
    case Field(Column(pattern), property) =>
      pattern in names.elements && row[Label(item)] == given(Property(pattern, property))
    case Node(Function(f), inputs) =>
      && f == "path_length" && |inputs| == 1 && inputs[0].Column? && inputs[0].name in names.paths
      && row[Label(item)] == given(PathLength(inputs[0].name))
    case _ => false
  }

  ghost predicate LabelledRow<V>(given: Read -> V, names: Names, row: map<string, V>, items: seq<Item>) {
    && (forall i :: 0 <= i < |items| ==> Labelled(given, names, row, items[i]))
    && (forall n :: n in row <==> exists i :: 0 <= i < |items| && Label(items[i]) == n)
  }

  /** When the node's own columns are the result, each label shows what its item reads, and there
      are no other labels. */
  lemma {:induction false} DirectColumns<V>(given: Read -> V, names: Names, taken: Allocation.State, items: seq<Item>)
    requires Finish(names, taken, items).Direct? && KeysSeparate(ReadsOfItems(names, items))
    ensures Inv(Finish(names, taken, items).state)
    ensures LabelledRow(given, names, Row(given, Finish(names, taken, items).state), items)
  {
    var t := Finish(names, taken, items).state;
    assert Represents(t, ReadsOfItems(names, items)) by { FinishRepresents(names, taken, items); }
    assert DirectSound(names, t, items) by { DirectIsSound(names, taken, items); }
    SoundColumns(given, names, t, items);
  }

  lemma {:induction false} SoundColumns<V>(given: Read -> V, names: Names, t: State, items: seq<Item>)
    requires DirectSound(names, t, items) && Represents(t, ReadsOfItems(names, items))
    requires KeysSeparate(ReadsOfItems(names, items))
    ensures LabelledRow(given, names, Row(given, t), items)
  {
    forall i | 0 <= i < |items| ensures Labelled(given, names, Row(given, t), items[i]) {
      DirectColumn(given, names, t, items, i);
    }
    DirectLabels(names, t, items);
  }

  lemma {:induction false} DirectColumn<V>(given: Read -> V, names: Names, t: State, items: seq<Item>, i: nat)
    requires i < |items| && DirectSound(names, t, items) && Represents(t, ReadsOfItems(names, items))
    requires KeysSeparate(ReadsOfItems(names, items))
    ensures Labelled(given, names, Row(given, t), items[i])
  {
    assert Shown(names, t, items[i]);
    var r := ReadOf(names, items[i].expr).value;
    ReadsOfItemsMembers(names, items, r);
    ThroughSeparateKeys(given, t, ReadsOfItems(names, items), r);
    ColumnOfKey(given, t, r);
    LabelIsVisible(names, items[i]);
  }

  lemma {:induction false} LabelIsVisible(names: Names, item: Item)
    requires ReadOf(names, item.expr).Some?
    ensures VisibleName(names, item) == Some(Label(item))
  {
  }

  lemma {:induction false} DirectLabels(names: Names, t: State, items: seq<Item>)
    requires DirectSound(names, t, items)
    ensures forall n :: n in t.mapping <==> exists i :: 0 <= i < |items| && Label(items[i]) == n
  {
    forall i | 0 <= i < |items| ensures VisibleName(names, items[i]) == Some(Label(items[i])) {
      assert Shown(names, t, items[i]);
      LabelIsVisible(names, items[i]);
    }
    forall n ensures n in t.mapping <==> exists i :: 0 <= i < |items| && Label(items[i]) == n {
      VisibleNamesMembers(names, items, n);
    }
  }

  /** And each distinct read is produced by exactly one node output. */
  lemma {:induction false} EachReadProducedOnce(names: Names, taken: Allocation.State, items: seq<Item>, r: Read)
    requires !Finish(names, taken, items).Rejected? && KeysSeparate(ReadsOfItems(names, items))
    requires r in ReadsOfItems(names, items)
    ensures var t := Finish(names, taken, items).state;
            exists i :: 0 <= i < |t.outputs| && Produced(t.outputs[i]) == r &&
                        forall j :: 0 <= j < |t.outputs| && Produced(t.outputs[j]) == r ==> j == i
  {
    FinishRepresents(names, taken, items);
    var t := Finish(names, taken, items).state;
    var i := KeyAt(t.outputs, KeyOf(OutputOf(r)));
    assert t.outputs[i] in t.outputs;
    forall j | 0 <= j < |t.outputs| && Produced(t.outputs[j]) == r ensures j == i {
      assert t.outputs[j] in t.outputs;
      var q :| q in ReadsOfItems(names, items) && OutputOf(q) == t.outputs[j];
    }
  }

  // ----- Exactly then: over values that record how they were computed.

  datatype Trace = Leaf(read: Read) | Applied(op: Op, args: seq<Trace>) | FieldOf(name: string, arg: Trace)

  const TRACING := Engine((op: Op, args: seq<Trace>) => Some(Applied(op, args)), (name: string, arg: Trace) => Some(FieldOf(name, arg)))

  function AsLeaf(): Read -> Trace {
    (r: Read) => Leaf(r)
  }

  lemma {:induction false} TracesDetermineReads(names: Names, f: Read -> Trace, e: PExpr)
    requires Known(names, e)
    ensures Eval(TRACING, names, f, e).Some?
    ensures Eval(TRACING, names, f, e) == Eval(TRACING, names, AsLeaf(), e) ==>
              forall r :: r in ReadsIn(names, e) ==> f(r) == Leaf(r)
    decreases e, 0
  {
    if ReadOf(names, e).None? {
      match e
      case Column(_) =>
      case Field(input, _) =>
        TracesDetermineReads(names, f, input);
        TracesDetermineReads(names, AsLeaf(), input);
      case Node(_, inputs) => AllTracesDetermineReads(names, f, inputs, 0);
    }
  }

  lemma {:induction false} AllTracesDetermineReads(names: Names, f: Read -> Trace, es: seq<PExpr>, i: nat)
    requires i <= |es| && forall j :: i <= j < |es| ==> Known(names, es[j])
    ensures EvalAll(TRACING, names, f, es, i).Some? && EvalAll(TRACING, names, AsLeaf(), es, i).Some?
    ensures EvalAll(TRACING, names, f, es, i) == EvalAll(TRACING, names, AsLeaf(), es, i) ==>
              forall r :: r in ReadsInAll(names, es, i) ==> f(r) == Leaf(r)
    decreases es, 0, |es| - i
  {
    if i < |es| {
      TracesDetermineReads(names, f, es[i]);
      TracesDetermineReads(names, AsLeaf(), es[i]);
      AllTracesDetermineReads(names, f, es, i + 1);
      var a, b := EvalAll(TRACING, names, f, es, i).value, EvalAll(TRACING, names, AsLeaf(), es, i).value;
      if a == b {
        assert a[0] == b[0] && a[1..] == b[1..];
      }
    }
  }

  /** The pass preserves every projected expression exactly when the keys tell the reads apart. */
  lemma {:induction false} PreservedExactly(names: Names, taken: Allocation.State, items: seq<Item>)
    requires !Finish(names, taken, items).Rejected?
    ensures KeysSeparate(ReadsOfItems(names, items)) <==>
            forall i :: 0 <= i < |items| ==>
              Result(TRACING, AsLeaf(), names, taken, items, i) == Eval(TRACING, names, AsLeaf(), items[i].expr)
  {
    var wanted := ReadsOfItems(names, items);
    if KeysSeparate(wanted) {
      forall i | 0 <= i < |items|
        ensures Result(TRACING, AsLeaf(), names, taken, items, i) == Eval(TRACING, names, AsLeaf(), items[i].expr)
      {
        OutputsPreserved(TRACING, AsLeaf(), names, taken, items, i);
      }
    } else if forall i :: 0 <= i < |items| ==>
        Result(TRACING, AsLeaf(), names, taken, items, i) == Eval(TRACING, names, AsLeaf(), items[i].expr) {
      FinishRepresents(names, taken, items);
      FinishedAreKnown(names, taken, items);
      var t := Finish(names, taken, items).state;
      forall r | r in wanted ensures Produced(OutputAt(t, KeyOf(OutputOf(r)))) == r {
        ReadsOfItemsMembers(names, items, r);
        var i :| 0 <= i < |items| && r in ReadsIn(names, items[i].expr);
        ResultGoesThrough(TRACING, AsLeaf(), names, taken, items, i);
        TracesDetermineReads(names, Through(AsLeaf(), t), items[i].expr);
        assert Through(AsLeaf(), t)(r) == Leaf(Produced(OutputAt(t, KeyOf(OutputOf(r)))));
      }
      assert KeysSeparate(wanted);
    }
  }

  lemma {:induction false} FinishedAreKnown(names: Names, taken: Allocation.State, items: seq<Item>)
    requires !Finish(names, taken, items).Rejected?
    ensures forall i :: 0 <= i < |items| ==> Known(names, items[i].expr)
  {
    if !IsDirect(names, items) { RewritesAllKnown(names, State([], [], map[], map[], taken), Exprs(items), 0); }
  }

  /** Pattern names without a dot are enough. */
  lemma {:induction false} DotFreeNamesSeparate(wanted: set<Read>)
    requires forall r :: r in wanted ==> '.' !in r.pattern && (r.Property? ==> r.property != "")
    ensures KeysSeparate(wanted)
  {
    forall r, q | r in wanted && q in wanted && KeyOf(OutputOf(r)) == KeyOf(OutputOf(q)) ensures r == q {
      SameSplit(r.pattern, OutputOf(r).property, q.pattern, OutputOf(q).property);
    }
  }

  lemma {:induction false} SameSplit(a: string, b: string, c: string, d: string)
    requires '.' !in a && '.' !in c && a + "." + b == c + "." + d
    ensures a == c && b == d
  {
    var k := a + "." + b;
    assert k[|a|] == '.' && k[|c|] == '.';
    assert forall i :: 0 <= i < |a| ==> k[i] == a[i] && k[i] in a;
    assert forall i :: 0 <= i < |c| ==> k[i] == c[i] && k[i] in c;
    assert k[..|a|] == a && k[..|c|] == c;
    assert k[|a| + 1..] == b && k[|c| + 1..] == d;
  }

  /** With dots two properties can share a key, and the second reads the first. */
  lemma {:induction false} KeysCollide()
    ensures !KeysSeparate({Property("a.b", "c"), Property("a", "b.c")})
  {
    var r, q := Property("a.b", "c"), Property("a", "b.c");
    assert KeyOf(OutputOf(r)) == "a.b.c" && KeyOf(OutputOf(q)) == "a.b.c";
    assert r.pattern != q.pattern;
  }

  // ----- The pass as it runs.

  class OutputCollector {
    var outputs: seq<Output>
    var columns: seq<string>
    var ids: map<string, string>
    var mapping: map<string, string>
    const names: Names
    const allocator: Allocation.NameAllocator

    ghost function View(): State
      reads this, allocator
    {
      State(outputs, columns, ids, mapping, allocator.View())
    }

    constructor (names: Names, allocator: Allocation.NameAllocator)
      ensures View() == State([], [], map[], map[], allocator.View())
      ensures this.names == names && this.allocator == allocator
    {
      this.names, this.allocator := names, allocator;
      outputs, columns, ids, mapping := [], [], map[], map[];
    }

    method Add(o: Output, hint: string) returns (id: Option<string>)
      modifies this, allocator
      ensures id.Some? <==> AddOutput(old(View()), o, hint).Some?
      ensures id.Some? ==> AddOutput(old(View()), o, hint) == Some((View(), id.value))
    {
      var key := KeyOf(o);
      if key in ids { return Some(ids[key]); }
      id := allocator.NewName(hint);
      if id.None? { return; }
      outputs := outputs + [o];
      columns := columns + [id.value];
      ids := ids[key := id.value];
    }

    method RewriteExpr(e: PExpr) returns (r: Option<PExpr>)
      modifies this, allocator
      ensures r.Some? <==> Rewrite(names, old(View()), e).Some?
      ensures r.Some? ==> Rewrite(names, old(View()), e) == Some((View(), r.value))
      decreases e, 1
    {
      var read := ReadOf(names, e);
      if read.Some? {
        var o := OutputOf(read.value);
        var id := Add(o, DefaultName(o));
        if id.None? { return None; }
        if id.value !in mapping { mapping := mapping[id.value := id.value]; }
        return Some(Column(id.value));
      }
      match e
      case Column(_) => r := None;
      case Field(input, name) =>
        var x := RewriteExpr(input);
        r := match x case None => None case Some(y) => Some(Field(y, name));
      case Node(op, inputs) =>
        var xs := RewriteInputs(inputs);
        r := match xs case None => None case Some(ys) => Some(Node(op, ys));
    }

    method RewriteInputs(es: seq<PExpr>) returns (r: Option<seq<PExpr>>)
      modifies this, allocator
      ensures r.Some? <==> RewriteAll(names, old(View()), es, 0).Some?
      ensures r.Some? ==> RewriteAll(names, old(View()), es, 0) == Some((View(), r.value))
      decreases es, 0
    {
      var done: seq<PExpr> := [];
      ghost var whole := RewriteAll(names, View(), es, 0);
      assert whole.Some? ==> done + whole.value.1 == whole.value.1;
      for i := 0 to |es|
        invariant RewriteAll(names, old(View()), es, 0) ==
          (match RewriteAll(names, View(), es, i) case None => None case Some((t, rest)) => Some((t, done + rest)))
      {
        ghost var before := View();
        var x := RewriteExpr(es[i]);
        if x.None? { return None; }
        ghost var later := RewriteAll(names, View(), es, i + 1);
        if later.Some? { assert done + ([x.value] + later.value.1) == done + [x.value] + later.value.1; }
        done := done + [x.value];
      }
      assert done + [] == done;
      r := Some(done);
    }

    method CanBeDirect(items: seq<Item>) returns (direct: bool)
      ensures direct == IsDirect(names, items)
    {
      var seenOutputs: set<Output>, seenNames: set<string> := {}, {};
      for i := 0 to |items|
        invariant IsDirect(names, items[..i])
        invariant seenOutputs == DirectReads(names, items[..i]) && seenNames == VisibleNames(names, items[..i])
      {
        DirectGrows(names, items[..i], items[i]);
        DirectSets(names, items, i);
        var read := ReadOf(names, items[i].expr);
        if read.None? { return false; }
        if OutputOf(read.value) in seenOutputs { return false; }
        seenOutputs := seenOutputs + {OutputOf(read.value)};
        var name := VisibleName(names, items[i]).value;
        if name in seenNames { return false; }
        seenNames := seenNames + {name};
      }
      assert items[..|items|] == items;
      return true;
    }

    /** Rewrites the outputs of a graph match whose patterns are complete. */
    method EndGraphMatch(items: seq<Item>) returns (ok: bool, direct: bool, exprs: seq<PExpr>)
      requires outputs == [] && columns == [] && ids == map[] && mapping == map[]
      modifies this, allocator
      ensures ok <==> !Finish(names, old(allocator.View()), items).Rejected?
      ensures ok && direct ==> Finish(names, old(allocator.View()), items) == Direct(View())
      ensures ok && !direct ==> Finish(names, old(allocator.View()), items) == Projected(View(), exprs)
    {
      exprs := [];
      direct := CanBeDirect(items);
      if direct {
        ok := AddAllDirectly(items);
      } else {
        var rewritten := RewriteInputs(Exprs(items));
        ok := rewritten.Some?;
        if ok { exprs := rewritten.value; }
      }
    }

    method AddAllDirectly(items: seq<Item>) returns (ok: bool)
      requires forall i :: 0 <= i < |items| ==> ReadOf(names, items[i].expr).Some?
      modifies this, allocator
      ensures ok <==> AddDirectly(names, old(View()), items).Some?
      ensures ok ==> AddDirectly(names, old(View()), items) == Some(View())
    {
      for i := 0 to |items|
        invariant AddDirectly(names, old(View()), items[..i]) == Some(View())
      {
        assert items[..i + 1][..i] == items[..i];
        var name := VisibleName(names, items[i]).value;
        var id := Add(OutputOf(ReadOf(names, items[i].expr).value), name);
        if id.None? {
          assert AddDirectly(names, old(View()), items[..i + 1]).None?;
          DirectFails(names, old(View()), items, i + 1);
          return false;
        }
        mapping := mapping[name := id.value];
      }
      assert items[..|items|] == items;
      return true;
    }
  }

  ghost function DirectReads(names: Names, items: seq<Item>): (r: set<Output>)
  {
    if items == [] then {}
    else
      var k := |items| - 1;
      DirectReads(names, items[..k])
      + match ReadOf(names, items[k].expr) case None => {} case Some(read) => {OutputOf(read)}
  }

  lemma {:induction false} DirectReadsMembers(names: Names, items: seq<Item>, o: Output)
    ensures o in DirectReads(names, items) <==>
            exists i :: 0 <= i < |items| && ReadOf(names, items[i].expr).Some? && OutputOf(ReadOf(names, items[i].expr).value) == o
  {
    if items != [] {
      var k := |items| - 1;
      DirectReadsMembers(names, items[..k], o);
      assert forall i :: 0 <= i < k ==> items[..k][i] == items[i];
    }
  }

  lemma {:induction false} VisibleNamesMembers(names: Names, items: seq<Item>, n: string)
    ensures n in VisibleNames(names, items) <==> exists i :: 0 <= i < |items| && VisibleName(names, items[i]) == Some(n)
  {
    if items != [] {
      var k := |items| - 1;
      VisibleNamesMembers(names, items[..k], n);
      assert forall i :: 0 <= i < k ==> items[..k][i] == items[i];
    }
  }

  lemma {:induction false} DirectGrows(names: Names, earlier: seq<Item>, last: Item)
    ensures IsDirect(names, earlier + [last]) <==>
            && IsDirect(names, earlier) && ReadOf(names, last.expr).Some?
            && OutputOf(ReadOf(names, last.expr).value) !in DirectReads(names, earlier)
            && VisibleName(names, last).value !in VisibleNames(names, earlier)
  {
    var items := earlier + [last];
    var n := |earlier|;
    assert forall i :: 0 <= i < n ==> items[i] == earlier[i];
    if ReadOf(names, last.expr).Some? {
      DirectReadsMembers(names, earlier, OutputOf(ReadOf(names, last.expr).value));
      VisibleNamesMembers(names, earlier, VisibleName(names, last).value);
      assert items[n] == last;
      if IsDirect(names, items) {
        assert forall i :: 0 <= i < n ==> ReadOf(names, items[i].expr) == ReadOf(names, earlier[i].expr);
        assert forall i :: 0 <= i < n ==>
          OutputOf(ReadOf(names, items[i].expr).value) != OutputOf(ReadOf(names, items[n].expr).value);
        assert forall i :: 0 <= i < n ==> VisibleName(names, items[i]) != VisibleName(names, items[n]);
        assert IsDirect(names, earlier);
      }
    } else {
      assert items[n] == last;
    }
  }

  /** One more item, which has to read something, in a longer list. */
  lemma {:induction false} DirectSets(names: Names, items: seq<Item>, i: nat)
    requires i < |items|
    ensures items[..i + 1] == items[..i] + [items[i]]
    ensures !IsDirect(names, items[..i] + [items[i]]) ==> !IsDirect(names, items)
    ensures ReadOf(names, items[i].expr).Some? ==>
              && DirectReads(names, items[..i + 1])
                 == DirectReads(names, items[..i]) + {OutputOf(ReadOf(names, items[i].expr).value)}
              && VisibleNames(names, items[..i + 1])
                 == VisibleNames(names, items[..i]) + {VisibleName(names, items[i]).value}
  {
    assert items[..i + 1] == items[..i] + [items[i]] && items[..i + 1][..i] == items[..i];
    if IsDirect(names, items) { DirectPrefix(names, items, i + 1); }
  }

  lemma {:induction false} DirectFails(names: Names, s: State, items: seq<Item>, i: nat)
    requires forall j :: 0 <= j < |items| ==> ReadOf(names, items[j].expr).Some?
    requires i <= |items| && AddDirectly(names, s, items[..i]).None?
    ensures AddDirectly(names, s, items).None?
  {
    if i == |items| {
      assert items[..i] == items;
    } else {
      assert items[..|items| - 1][..i] == items[..i];
      DirectFails(names, s, items[..|items| - 1], i);
    }
  }
}
