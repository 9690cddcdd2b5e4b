/** ConnectorContext.sessionFor as an interleaved protocol: a map of entries under a lock, and
    each entry's session built once under its own flag, outside the lock. */
module SessionCache {
  import opened Wrappers

  type Properties = map<string, string>

  /** A built session; serial tells apart sessions that are equal field by field. */
  datatype Session = Session(serial: nat, queryId: string, user: string, properties: Properties, writer: nat)

  /** The call-once flag. A build that throws puts it back to NotRun. */
  datatype Once = NotRun | Running(builder: nat) | Done

  /** An entry, with the connector id it was made for. */
  datatype Entry = Entry(owner: string, once: Once, session: Option<Session>)

  datatype Pc =
    | Looking
    | Missing(spare: nat)
    | Holding(entry: nat)
    | Building(entry: nat)
    | HasWriter(entry: nat, writer: nat)
    | Assigned(entry: nat)
    | Ready(entry: nat)
    | Returned(session: Session)
    | Threw

  datatype Caller = Caller(id: string, pc: Pc)

  datatype Context = Context(queryId: string, user: string, properties: map<string, Properties>)

  /** entries is the heap of entries; sessions the shared map; builds the sessions built so far. */
  datatype State = State(
    sessions: map<string, nat>,
    entries: map<nat, Entry>,
    nextEntry: nat,
    callers: map<nat, Caller>,
    builds: seq<(string, Session)>)

  datatype Step =
    | Call(caller: nat, id: string)
    | Lookup(caller: nat)
    | Emplace(caller: nat)
    | Enter(caller: nat)
    | Provide(caller: nat, writer: nat)
    | Throw(caller: nat)
    | Assign(caller: nat)
    | Latch(caller: nat)
    | Return(caller: nat)

  const Initial := State(map[], map[], 0, map[], [])

  function PropertiesFor(context: Context, id: string): Properties {
    if id in context.properties then context.properties[id] else map[]
  }

  predicate Enabled(s: State, step: Step) {
    match step
    case Call(c, _) => c !in s.callers
    case Lookup(c) => c in s.callers && s.callers[c].pc.Looking?
    case Emplace(c) => c in s.callers && s.callers[c].pc.Missing?
    // A caller waits while another one runs the build.
    case Enter(c) =>
      c in s.callers && s.callers[c].pc.Holding? && s.callers[c].pc.entry in s.entries &&
      !s.entries[s.callers[c].pc.entry].once.Running?
    case Provide(c, _) => c in s.callers && s.callers[c].pc.Building?
    // The provider, its null check or the session's constructor throws.
    case Throw(c) =>
      c in s.callers && (s.callers[c].pc.Building? || s.callers[c].pc.HasWriter?) &&
      s.callers[c].pc.entry in s.entries
    case Assign(c) => c in s.callers && s.callers[c].pc.HasWriter? && s.callers[c].pc.entry in s.entries
    case Latch(c) => c in s.callers && s.callers[c].pc.Assigned? && s.callers[c].pc.entry in s.entries
    case Return(c) =>
      c in s.callers && s.callers[c].pc.Ready? && s.callers[c].pc.entry in s.entries &&
      s.entries[s.callers[c].pc.entry].session.Some?
  }

  function Move(s: State, c: nat, pc: Pc): State
    requires c in s.callers
  {
    s.(callers := s.callers[c := s.callers[c].(pc := pc)])
  }

  function SetEntry(s: State, e: nat, entry: Entry): State {
    s.(entries := s.entries[e := entry])
  }

  function Apply(context: Context, s: State, step: Step): State
    requires Enabled(s, step)
  {
    match step
    case Call(c, id) => s.(callers := s.callers[c := Caller(id, Looking)])
    case Lookup(c) =>
      var id := s.callers[c].id;
      if id in s.sessions then Move(s, c, Holding(s.sessions[id]))
      else
        Move(SetEntry(s, s.nextEntry, Entry(id, NotRun, None)), c, Missing(s.nextEntry)).(nextEntry := s.nextEntry + 1)
    case Emplace(c) =>
      var id := s.callers[c].id;
      if id in s.sessions then Move(s, c, Holding(s.sessions[id]))
      else Move(s, c, Holding(s.callers[c].pc.spare)).(sessions := s.sessions[id := s.callers[c].pc.spare])
    case Enter(c) =>
      var e := s.callers[c].pc.entry;
      if s.entries[e].once.Done? then Move(s, c, Ready(e))
      else Move(SetEntry(s, e, s.entries[e].(once := Running(c))), c, Building(e))
    case Provide(c, w) => Move(s, c, HasWriter(s.callers[c].pc.entry, w))
    case Throw(c) =>
      var e := s.callers[c].pc.entry;
      Move(SetEntry(s, e, s.entries[e].(once := NotRun)), c, Threw)
    case Assign(c) =>
      var e, id := s.callers[c].pc.entry, s.callers[c].id;
      var session :=
        Session(|s.builds|, context.queryId, context.user, PropertiesFor(context, id), s.callers[c].pc.writer);
      Move(SetEntry(s, e, s.entries[e].(session := Some(session))), c, Assigned(e)).(builds := s.builds + [(id, session)])
    case Latch(c) =>
      var e := s.callers[c].pc.entry;
      Move(SetEntry(s, e, s.entries[e].(once := Done)), c, Ready(e))
    case Return(c) => Move(s, c, Returned(s.entries[s.callers[c].pc.entry].session.value))
  }

  ghost predicate IsRun(context: Context, states: seq<State>, steps: seq<Step>) {
    && |states| == |steps| + 1 && states[0] == Initial
    && forall i :: 0 <= i < |steps| ==>
         Enabled(states[i], steps[i]) && states[i + 1] == Apply(context, states[i], steps[i])
  }

  // ----- The invariant.

  function EntryOf(pc: Pc): Option<nat> {
    match pc
    case Holding(e) => Some(e)
    case Building(e) => Some(e)
    case HasWriter(e, _) => Some(e)
    case Assigned(e) => Some(e)
    case Ready(e) => Some(e)
    case _ => None
  }

  predicate Runs(pc: Pc, e: nat) {
    pc == Building(e) || pc == Assigned(e) || (pc.HasWriter? && pc.entry == e)
  }

  /** An id in the shared map has an entry made for it. */
  predicate IdOk(s: State, id: string)
    requires id in s.sessions
  {
    s.sessions[id] in s.entries && s.entries[s.sessions[id]].owner == id
  }

  predicate Published(s: State, e: nat)
    requires e in s.entries
  {
    s.entries[e].owner in s.sessions && s.sessions[s.entries[e].owner] == e
  }

  /** Past the map a caller holds the map's entry; it is the builder the flag names while it
      builds, finds the flag up before it reads the session, and returned the entry's session. */
  predicate CallerOk(s: State, c: nat)
    requires c in s.callers
  {
    var id, pc := s.callers[c].id, s.callers[c].pc;
    && (pc.Missing? ==> pc.spare in s.entries && s.entries[pc.spare].owner == id)
    && (EntryOf(pc).Some? ==>
          && id in s.sessions && s.sessions[id] == EntryOf(pc).value && EntryOf(pc).value in s.entries
          && (Runs(pc, EntryOf(pc).value) ==> s.entries[EntryOf(pc).value].once == Running(c))
          && (pc.Ready? ==> s.entries[EntryOf(pc).value].once.Done?))
    && (pc.Returned? ==>
          id in s.sessions && s.sessions[id] in s.entries && s.entries[s.sessions[id]].once.Done? &&
          s.entries[s.sessions[id]].session == Some(pc.session))
  }

  /** An entry outside the map is untouched; a raised flag has a builder; a session is there from
      the builder's assignment on, made for the entry's owner. */
  predicate EntryOk(context: Context, s: State, e: nat)
    requires e in s.entries
  {
    var entry := s.entries[e];
    && e < s.nextEntry
    && (!Published(s, e) ==> entry.once.NotRun?)
    && (entry.once.Running? ==> entry.once.builder in s.callers && Runs(s.callers[entry.once.builder].pc, e))
    && (entry.session.Some? <==>
          entry.once.Done? || (entry.once.Running? && s.callers[entry.once.builder].pc.Assigned?))
    && (entry.session.Some? ==> MadeFor(context, entry.owner, entry.session.value))
  }

  predicate MadeFor(context: Context, id: string, session: Session) {
    && session.queryId == context.queryId && session.user == context.user
    && (id in context.properties ==> session.properties == context.properties[id])
    && (id !in context.properties ==> session.properties == map[])
  }

  function BuildsOf(builds: seq<(string, Session)>, id: string): seq<Session> {
    if builds == [] then []
    else
      var n := |builds| - 1;
      BuildsOf(builds[..n], id) + if builds[n].0 == id then [builds[n].1] else []
  }

  /** The sessions built for an id: none, or the one its entry holds. */
  predicate BuildsOk(s: State, id: string) {
    BuildsOf(s.builds, id) ==
      if id in s.sessions && s.sessions[id] in s.entries && s.entries[s.sessions[id]].session.Some?
      then [s.entries[s.sessions[id]].session.value] else []
  }

  ghost predicate Inv(context: Context, s: State) {
    && (forall id :: id in s.sessions ==> IdOk(s, id))
    && (forall c :: c in s.callers ==> CallerOk(s, c))
    && (forall e :: e in s.entries ==> EntryOk(context, s, e))
    && (forall id :: BuildsOk(s, id))
  }

  lemma {:induction false} StepIdOk(context: Context, s: State, step: Step, id: string)
    requires Inv(context, s) && Enabled(s, step) && id in Apply(context, s, step).sessions
    ensures IdOk(Apply(context, s, step), id)
  {
    if !step.Call? { assert CallerOk(s, step.caller); }
    if id in s.sessions {
      assert IdOk(s, id);
      assert EntryOk(context, s, s.sessions[id]);
    }
  }

  lemma {:induction false} StepCallerOk(context: Context, s: State, step: Step, c: nat)
    requires Inv(context, s) && Enabled(s, step) && c in Apply(context, s, step).callers
    ensures CallerOk(Apply(context, s, step), c)
  {
    if !step.Call? { AboutCaller(context, s, step.caller); }
    if c in s.callers { AboutCaller(context, s, c); }
    match step
    case Call(_, _) =>
    case Lookup(_) => MapStepCallerOk(context, s, step, c);
    case Emplace(_) => MapStepCallerOk(context, s, step, c);
    case Assign(_) => AssignCallerOk(context, s, step, c);
    case Throw(_) => FlagStepCallerOk(context, s, step, c);
    case Enter(_) => FlagStepCallerOk(context, s, step, c);
    case Latch(_) => FlagStepCallerOk(context, s, step, c);
    case _ =>
  }

  /** What the invariant says of a caller, its id and its entries. */
  ghost predicate CallerKnown(context: Context, s: State, c: nat)
    requires c in s.callers
  {
    var id, pc := s.callers[c].id, s.callers[c].pc;
    && CallerOk(s, c)
    && (id in s.sessions ==> IdOk(s, id) && EntryOk(context, s, s.sessions[id]))
    && (pc.Missing? ==> EntryOk(context, s, pc.spare))
  }

  lemma {:induction false} AboutCaller(context: Context, s: State, c: nat)
    requires Inv(context, s) && c in s.callers
    ensures CallerKnown(context, s, c)
  {
    assert CallerOk(s, c);
    var id := s.callers[c].id;
    if id in s.sessions { assert IdOk(s, id); }
  }

  lemma {:induction false} MapStepCallerOk(context: Context, s: State, step: Step, c: nat)
    requires (step.Lookup? || step.Emplace?) && Enabled(s, step) && c in s.callers
    requires CallerKnown(context, s, step.caller) && CallerKnown(context, s, c)
    requires forall e :: e in s.entries ==> e < s.nextEntry
    ensures CallerOk(Apply(context, s, step), c)
  {
  }

  lemma {:induction false} AssignCallerOk(context: Context, s: State, step: Step, c: nat)
    requires step.Assign? && Enabled(s, step) && c in s.callers
    requires CallerKnown(context, s, step.caller) && CallerKnown(context, s, c)
    ensures CallerOk(Apply(context, s, step), c)
  {
  }

  lemma {:induction false} FlagStepCallerOk(context: Context, s: State, step: Step, c: nat)
    requires (step.Throw? || step.Enter? || step.Latch?) && Enabled(s, step) && c in s.callers
    requires CallerKnown(context, s, step.caller) && CallerKnown(context, s, c)
    ensures CallerOk(Apply(context, s, step), c)
  {
  }

  lemma {:induction false} StepEntryOk(context: Context, s: State, step: Step, e: nat)
    requires Inv(context, s) && Enabled(s, step) && e in Apply(context, s, step).entries
    ensures EntryOk(context, Apply(context, s, step), e)
  {
    if !step.Call? {
      assert CallerOk(s, step.caller);
      var id := s.callers[step.caller].id;
      if id in s.sessions { assert IdOk(s, id); assert EntryOk(context, s, s.sessions[id]); }
    }
    if e in s.entries {
      assert EntryOk(context, s, e);
      if s.entries[e].once.Running? { assert CallerOk(s, s.entries[e].once.builder); }
    }
  }

  lemma {:induction false} StepBuildsOk(context: Context, s: State, step: Step, id: string)
    requires Inv(context, s) && Enabled(s, step)
    ensures BuildsOk(Apply(context, s, step), id)
  {
    assert BuildsOk(s, id);
    if !step.Call? { AboutCaller(context, s, step.caller); }
    if id in s.sessions { assert IdOk(s, id); assert EntryOk(context, s, s.sessions[id]); }
    match step
    case Call(_, _) =>
    case Assign(_) => AssignBuildsOk(context, s, step, id);
    case _ => OtherBuildsOk(context, s, step, id);
  }

  lemma {:induction false} AssignBuildsOk(context: Context, s: State, step: Step, id: string)
    requires step.Assign? && Enabled(s, step) && CallerKnown(context, s, step.caller) && BuildsOk(s, id)
    requires id in s.sessions ==> IdOk(s, id) && EntryOk(context, s, s.sessions[id])
    ensures BuildsOk(Apply(context, s, step), id)
  {
    assert Apply(context, s, step).builds[..|s.builds|] == s.builds;
  }

  lemma {:induction false} OtherBuildsOk(context: Context, s: State, step: Step, id: string)
    requires !step.Call? && !step.Assign? && Enabled(s, step) && CallerKnown(context, s, step.caller) && BuildsOk(s, id)
    requires id in s.sessions ==> IdOk(s, id) && EntryOk(context, s, s.sessions[id])
    requires forall e :: e in s.entries ==> e < s.nextEntry
    ensures BuildsOk(Apply(context, s, step), id)
  {
  }

  lemma {:induction false} StepInv(context: Context, s: State, step: Step)
    requires Inv(context, s) && Enabled(s, step)
    ensures Inv(context, Apply(context, s, step))
  {
    var t := Apply(context, s, step);
    forall id | id in t.sessions ensures IdOk(t, id) { StepIdOk(context, s, step, id); }
    forall c | c in t.callers ensures CallerOk(t, c) { StepCallerOk(context, s, step, c); }
    forall e | e in t.entries ensures EntryOk(context, t, e) { StepEntryOk(context, s, step, e); }
    forall id ensures BuildsOk(t, id) { StepBuildsOk(context, s, step, id); }
  }

  lemma {:induction false} RunInv(context: Context, states: seq<State>, steps: seq<Step>, i: nat)
    requires IsRun(context, states, steps) && i < |states|
    ensures Inv(context, states[i])
  {
    if i > 0 {
      RunInv(context, states, steps, i - 1);
      StepInv(context, states[i - 1], steps[i - 1]);
    }
  }

  // ----- What callers see.

  /** Over every interleaving, with builds failing at any point: two calls for one connector id,
      returned at any two moments, gave the same session; it was made from that id's properties,
      and it is the only session ever built for the id. */
  lemma {:induction false} OneSessionPerConnector(
      context: Context, states: seq<State>, steps: seq<Step>, i: nat, j: nat, c: nat, d: nat)
    requires IsRun(context, states, steps) && i <= j < |states|
    requires c in states[i].callers && states[i].callers[c].pc.Returned?
    requires d in states[j].callers && states[j].callers[d].pc.Returned?
    requires states[i].callers[c].id == states[j].callers[d].id
    ensures states[i].callers[c].pc.session == states[j].callers[d].pc.session
    ensures MadeFor(context, states[i].callers[c].id, states[i].callers[c].pc.session)
    ensures BuildsOf(states[j].builds, states[j].callers[d].id) == [states[j].callers[d].pc.session]
  {
    ReturnedForever(context, states, steps, i, j, c);
    RunInv(context, states, steps, j);
    var s, id := states[j], states[j].callers[d].id;
    assert CallerOk(s, c) && CallerOk(s, d) && IdOk(s, id) && BuildsOk(s, id);
    assert EntryOk(context, s, s.sessions[id]);
  }

  /** The writer of a returned session is what the provider gave a caller of that connector id. */
  lemma {:induction false} WriterProvided(context: Context, states: seq<State>, steps: seq<Step>, i: nat, c: nat)
    returns (j: nat, b: nat)
    requires IsRun(context, states, steps) && i < |states| && c in states[i].callers && states[i].callers[c].pc.Returned?
    ensures j < i && b in states[j].callers && states[j].callers[b].id == states[i].callers[c].id
    ensures steps[j] == Provide(b, states[i].callers[c].pc.session.writer)
  {
    OneSessionPerConnector(context, states, steps, i, i, c, c);
    var id, session := states[i].callers[c].id, states[i].callers[c].pc.session;
    assert BuildsOf(states[i].builds, id)[0] == session;
    var k := BuiltAt(states[i].builds, id, session);
    j, b := BuildProvided(context, states, steps, i, k);
  }

  lemma {:induction false} BuiltAt(builds: seq<(string, Session)>, id: string, session: Session) returns (k: nat)
    requires session in BuildsOf(builds, id)
    ensures k < |builds| && builds[k] == (id, session)
  {
    var n := |builds| - 1;
    if builds[n] == (id, session) { k := n; } else { k := BuiltAt(builds[..n], id, session); }
  }

  lemma {:induction false} BuildProvided(context: Context, states: seq<State>, steps: seq<Step>, i: nat, k: nat)
    returns (j: nat, b: nat)
    requires IsRun(context, states, steps) && i < |states| && k < |states[i].builds|
    ensures j < i && b in states[j].callers && states[j].callers[b].id == states[i].builds[k].0
    ensures steps[j] == Provide(b, states[i].builds[k].1.writer)
  {
    if k < |states[i - 1].builds| {
      BuildsKept(context, states[i - 1], steps[i - 1], k);
      j, b := BuildProvided(context, states, steps, i - 1, k);
    } else {
      b := steps[i - 1].caller;
      j := WriterHeld(context, states, steps, i - 1, b);
    }
  }

  lemma {:induction false} BuildsKept(context: Context, s: State, step: Step, k: nat)
    requires Enabled(s, step) && k < |s.builds|
    ensures k < |Apply(context, s, step).builds| && Apply(context, s, step).builds[k] == s.builds[k]
  {
  }

  lemma {:induction false} WriterHeld(context: Context, states: seq<State>, steps: seq<Step>, i: nat, c: nat) returns (j: nat)
    requires IsRun(context, states, steps) && i < |states| && c in states[i].callers && states[i].callers[c].pc.HasWriter?
    ensures j < i && c in states[j].callers && states[j].callers[c].id == states[i].callers[c].id
    ensures steps[j] == Provide(c, states[i].callers[c].pc.writer)
  {
    assert Enabled(states[i - 1], steps[i - 1]) && states[i] == Apply(context, states[i - 1], steps[i - 1]);
    HeldAfter(context, states[i - 1], steps[i - 1], c);
    if c in states[i - 1].callers && states[i - 1].callers[c] == states[i].callers[c] {
      j := WriterHeld(context, states, steps, i - 1, c);
    } else {
      j := i - 1;
    }
  }

  lemma {:induction false} HeldAfter(context: Context, s: State, step: Step, c: nat)
    requires Enabled(s, step) && c in Apply(context, s, step).callers && Apply(context, s, step).callers[c].pc.HasWriter?
    ensures c in s.callers && s.callers[c].id == Apply(context, s, step).callers[c].id
    ensures s.callers[c] == Apply(context, s, step).callers[c]
            || step == Provide(c, Apply(context, s, step).callers[c].pc.writer)
  {
    if step.caller != c {
      assert c in s.callers && s.callers[c] == Apply(context, s, step).callers[c];
    }
  }

  lemma {:induction false} ReturnedForever(
      context: Context, states: seq<State>, steps: seq<Step>, i: nat, j: nat, c: nat)
    requires IsRun(context, states, steps) && i <= j < |states|
    requires c in states[i].callers && states[i].callers[c].pc.Returned?
    ensures c in states[j].callers && states[j].callers[c] == states[i].callers[c]
  {
    if i < j { ReturnedForever(context, states, steps, i, j - 1, c); }
  }

  /** A failed build leaves the entry as if never tried: its flag is down, no session was built,
      and any caller holding the entry can start the build again. */
  lemma {:induction false} FailedBuildRetryable(
      context: Context, states: seq<State>, steps: seq<Step>, i: nat, id: string, e: nat)
    requires IsRun(context, states, steps) && i < |steps| && steps[i].Throw?
    requires id == states[i].callers[steps[i].caller].id && e == states[i].callers[steps[i].caller].pc.entry
    ensures id in states[i + 1].sessions && states[i + 1].sessions[id] == e
    ensures e in states[i + 1].entries && states[i + 1].entries[e] == Entry(id, NotRun, None)
    ensures BuildsOf(states[i + 1].builds, id) == []
    ensures forall d :: d in states[i + 1].callers && states[i + 1].callers[d] == Caller(id, Holding(e)) ==>
              (Enabled(states[i + 1], Enter(d)) &&
               Apply(context, states[i + 1], Enter(d)).callers[d].pc == Building(e))
  {
    var s, t := states[i], states[i + 1];
    RunInv(context, states, steps, i);
    assert CallerOk(s, steps[i].caller) && IdOk(s, id) && EntryOk(context, s, e);
    assert t == Apply(context, s, steps[i]);
    RunInv(context, states, steps, i + 1);
    assert BuildsOk(t, id);
  }

  /** The step a caller takes next when nothing throws. */
  function NextStep(s: State, c: nat): Step
    requires c in s.callers
  {
    match s.callers[c].pc
    case Looking => Lookup(c)
    case Missing(_) => Emplace(c)
    case Holding(_) => Enter(c)
    case Building(_) => Provide(c, 0)
    case HasWriter(_, _) => Assign(c)
    case Assigned(_) => Latch(c)
    case _ => Return(c)
  }

  /** No caller is stuck: it can step without failing, or it waits for a builder of its entry that
      can. */
  lemma {:induction false} NoDeadlock(context: Context, states: seq<State>, steps: seq<Step>, i: nat, c: nat)
    requires IsRun(context, states, steps) && i < |states| && c in states[i].callers
    requires !states[i].callers[c].pc.Returned? && !states[i].callers[c].pc.Threw?
    ensures Enabled(states[i], NextStep(states[i], c)) ||
            exists b :: b in states[i].callers && b != c && states[i].callers[b].id == states[i].callers[c].id &&
              Enabled(states[i], NextStep(states[i], b))
  {
    RunInv(context, states, steps, i);
    var s := states[i];
    assert CallerOk(s, c);
    if EntryOf(s.callers[c].pc).Some? { assert EntryOk(context, s, EntryOf(s.callers[c].pc).value); }
    if !Enabled(s, NextStep(s, c)) {
      var b := s.entries[s.callers[c].pc.entry].once.builder;
      assert CallerOk(s, b) && IdOk(s, s.callers[b].id) && IdOk(s, s.callers[c].id);
      assert Enabled(s, NextStep(s, b));
    }
  }

  // ----- Every call ends.

  function Rank(pc: Pc): nat {
    match pc
    case Looking => 7
    case Missing(_) => 6
    case Holding(_) => 5
    case Building(_) => 4
    case HasWriter(_, _) => 3
    case Assigned(_) => 2
    case Ready(_) => 1
    case Returned(_) => 0
    case Threw => 0
  }

  /** The steps the callers can still take. */
  ghost function Work(callers: map<nat, Caller>): nat
    decreases callers.Keys
  {
    if callers.Keys == {} then 0
    else
      var c :| c in callers.Keys;
      Rank(callers[c].pc) + Work(callers - {c})
  }

  lemma {:induction false} WorkOf(callers: map<nat, Caller>, c: nat)
    requires c in callers
    ensures Work(callers) == Rank(callers[c].pc) + Work(callers - {c})
    decreases callers.Keys
  {
    var d :| d in callers.Keys && Work(callers) == Rank(callers[d].pc) + Work(callers - {d});
    if d != c {
      WorkOf(callers - {d}, c);
      assert (callers - {d}) - {c} == (callers - {c}) - {d};
      WorkOf(callers - {c}, d);
    }
  }

  lemma {:induction false} WorkLowers(before: map<nat, Caller>, after: map<nat, Caller>, c: nat)
    requires c in before && c in after && before - {c} == after - {c} && Rank(after[c].pc) < Rank(before[c].pc)
    ensures Work(after) < Work(before)
  {
    WorkOf(before, c);
    WorkOf(after, c);
  }

  /** Every step but a new call brings the callers closer to their ends. */
  lemma {:induction false} StepsEnd(context: Context, s: State, step: Step)
    requires Enabled(s, step) && !step.Call?
    ensures Work(Apply(context, s, step).callers) < Work(s.callers)
  {
    var t := Apply(context, s, step);
    assert t.callers - {step.caller} == s.callers - {step.caller};
    WorkLowers(s.callers, t.callers, step.caller);
  }

  ghost predicate Ended(pc: Pc) {
    pc.Returned? || pc.Threw?
  }

  /** The same callers, of which the same ones have thrown. */
  ghost predicate SameThrown(s: State, t: State) {
    forall c :: c in s.callers ==> c in t.callers && (s.callers[c].pc.Threw? <==> t.callers[c].pc.Threw?)
  }

  lemma {:induction false} StepThrowsNothing(context: Context, s: State, step: Step)
    requires Enabled(s, step) && !step.Call? && !step.Throw?
    ensures SameThrown(s, Apply(context, s, step))
  {
  }

  /** One more step of a caller that has not ended, or of the builder it waits for. */
  lemma {:induction false} StepOn(context: Context, states: seq<State>, steps: seq<Step>, c: nat) returns (step: Step)
    requires IsRun(context, states, steps) && c in states[|steps|].callers && !Ended(states[|steps|].callers[c].pc)
    ensures Enabled(states[|steps|], step) && !step.Call? && !step.Throw?
  {
    NoDeadlock(context, states, steps, |steps|, c);
    var s := states[|steps|];
    if Enabled(s, NextStep(s, c)) {
      step := NextStep(s, c);
    } else {
      var b :| b in s.callers && Enabled(s, NextStep(s, b));
      step := NextStep(s, b);
    }
  }

  /** From any reachable state, with no further failure, every caller that has not thrown
      returns. */
  lemma {:induction false} EveryCallerReturns(context: Context, states: seq<State>, steps: seq<Step>)
    returns (all: seq<State>, taken: seq<Step>)
    requires IsRun(context, states, steps)
    ensures IsRun(context, all, taken) && states <= all && steps <= taken
    ensures forall i :: |steps| <= i < |taken| ==> !taken[i].Call? && !taken[i].Throw?
    ensures SameThrown(states[|steps|], all[|taken|])
    ensures forall c :: c in all[|taken|].callers ==> Ended(all[|taken|].callers[c].pc)
    decreases Work(states[|steps|].callers)
  {
    var s := states[|steps|];
    if c :| c in s.callers && !Ended(s.callers[c].pc) {
      var step := StepOn(context, states, steps, c);
      var more, longer := states + [Apply(context, s, step)], steps + [step];
      StepsEnd(context, s, step);
      StepThrowsNothing(context, s, step);
      Extended(context, states, steps, step);
      assert more[|longer|] == Apply(context, s, step);
      all, taken := EveryCallerReturns(context, more, longer);
      assert states <= more && steps <= longer;
    } else {
      all, taken := states, steps;
    }
  }

  lemma {:induction false} Extended(context: Context, states: seq<State>, steps: seq<Step>, step: Step)
    requires IsRun(context, states, steps) && Enabled(states[|steps|], step)
    ensures IsRun(context, states + [Apply(context, states[|steps|], step)], steps + [step])
  {
    var more, taken := states + [Apply(context, states[|steps|], step)], steps + [step];
    forall i | 0 <= i < |taken| ensures Enabled(more[i], taken[i]) && more[i + 1] == Apply(context, more[i], taken[i]) {
      if i < |steps| { assert more[i] == states[i] && more[i + 1] == states[i + 1] && taken[i] == steps[i]; }
    }
  }

  // ----- A call that nothing interrupts.

  class CacheEntry {
    var built: bool
    var session: Option<Session>

    constructor ()
      ensures !built && session == None
    {
      built, session := false, None;
    }
  }

  class ConnectorContext {
    const context: Context
    var sessions: map<string, CacheEntry>
    var built: nat

    ghost predicate Valid()
      reads this, sessions.Values
    {
      && (forall id :: id in sessions ==> (sessions[id].built <==> sessions[id].session.Some?))
      && (forall i, j :: i in sessions && j in sessions && i != j ==> sessions[i] != sessions[j])
    }

    /** The session built for each known id, if one was. */
    ghost function View(): map<string, Option<Session>>
      reads this, sessions.Values
    {
      map id | id in sessions :: sessions[id].session
    }

    constructor (context: Context)
      ensures Valid() && View() == map[] && this.context == context
    {
      this.context := context;
      sessions, built := map[], 0;
    }

    /** The id's entry, a new one if it has none. */
    method EntryFor(id: string) returns (entry: CacheEntry)
      requires Valid()
      modifies this`sessions
      ensures Valid() && fresh(sessions.Values - old(sessions.Values))
      ensures id in sessions && sessions[id] == entry && entry.session == (if id in old(View()) then old(View())[id] else None)
      ensures View() == old(View())[id := entry.session]
    {
      if id !in sessions {
        var spare := new CacheEntry();
        sessions := sessions[id := spare];
      }
      entry := sessions[id];
    }

    /** writer: what the provider returns; None when it throws or returns null. */
    method SessionFor(id: string, writer: Option<nat>) returns (r: Option<Session>)
      requires Valid()
      modifies this, sessions.Values
      ensures Valid() && fresh(sessions.Values - old(sessions.Values))
      ensures View() == old(View())[id := r]
      ensures id in old(View()) && old(View())[id].Some? ==> r == old(View())[id] && built == old(built)
      ensures !(id in old(View()) && old(View())[id].Some?) ==>
                && (r.Some? <==> writer.Some?) && built == old(built) + (if r.Some? then 1 else 0)
                && (r.Some? ==> MadeFor(context, id, r.value) && r.value.writer == writer.value)
    {
      var entry := EntryFor(id);
      if entry.built { r := entry.session; } else { r := Build(id, writer); }
    }

    /** The body of the entry's call_once. */
    method Build(id: string, writer: Option<nat>) returns (r: Option<Session>)
      requires Valid() && id in sessions && !sessions[id].built
      modifies this`built, sessions[id]
      ensures Valid() && View() == old(View())[id := r]
      ensures (r.Some? <==> writer.Some?) && built == old(built) + (if r.Some? then 1 else 0)
      ensures r.Some? ==> MadeFor(context, id, r.value) && r.value.writer == writer.value
    {
      if writer.None? { return None; }
      r := Some(Session(built, context.queryId, context.user, PropertiesFor(context, id), writer.value));
      sessions[id].session := r;
      built := built + 1;
      sessions[id].built := true;
    }
  }
}
