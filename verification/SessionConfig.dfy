/** Session properties: the registry of providers, and a session's overrides of their defaults.
    What a provider normalizes and what reads as a double are parameters. */
module SessionConfig {
  import opened Wrappers

  datatype PropertyType = BooleanProperty | IntegerProperty | DoubleProperty | StringProperty

  datatype Property = Property(name: string, ty: PropertyType, default: Option<string>)

  /** normalize fails on a value the provider does not accept. */
  datatype Provider = Provider(properties: seq<Property>, normalize: (string, string) -> Option<string>)

  datatype Registered = Registered(provider: Provider, properties: map<string, Property>)

  type Registry = map<string, Registered>

  datatype Error =
    | PrefixTaken | DuplicateProperty | NoProvider | NotQualified | UnknownPrefix | UnknownProperty | InvalidValue

  // ----- Qualified names.

  function FirstDot(s: string): (r: Option<nat>)
    ensures r.Some? ==> r.value < |s| && s[r.value] == '.' && forall i :: 0 <= i < r.value ==> s[i] != '.'
    ensures r.None? ==> '.' !in s
  {
    if s == "" then None
    else if s[0] == '.' then Some(0)
    else
      match FirstDot(s[1..])
      case None => None
      case Some(i) => Some(i + 1)
  }

  function Qualified(prefix: string, name: string): string {
    prefix + "." + name
  }

  datatype Resolution = Resolution(prefix: string, name: string, provider: Provider, property: Property)

  function ResolveName(registry: Registry, q: string): Result<Resolution, Error> {
    match FirstDot(q)
    case None => Fail(NotQualified)
    case Some(dot) =>
      var prefix, name := q[..dot], q[dot + 1..];
      if prefix !in registry then Fail(UnknownPrefix)
      else if name !in registry[prefix].properties then Fail(UnknownProperty)
      else Ok(Resolution(prefix, name, registry[prefix].provider, registry[prefix].properties[name]))
  }

  lemma {:induction false} DotFreeSplit(prefix: string, name: string)
    requires '.' !in prefix
    ensures FirstDot(Qualified(prefix, name)) == Some(|prefix|)
  {
    var q := Qualified(prefix, name);
    assert q[|prefix|] == '.';
    assert forall i :: 0 <= i < |prefix| ==> q[i] == prefix[i] && q[i] in prefix;
  }

  /** A registered property answers to its qualified name exactly when its prefix has no dot;
      otherwise it answers to no name at all. */
  lemma {:induction false} ResolvesBack(registry: Registry, prefix: string, name: string)
    requires prefix in registry && name in registry[prefix].properties
    ensures '.' !in prefix <==>
            ResolveName(registry, Qualified(prefix, name))
            == Ok(Resolution(prefix, name, registry[prefix].provider, registry[prefix].properties[name]))
    ensures '.' !in prefix <==> exists q :: ResolveName(registry, q).Ok? && ResolveName(registry, q).value.prefix == prefix
                                            && ResolveName(registry, q).value.name == name
  {
    var q := Qualified(prefix, name);
    if '.' !in prefix {
      DotFreeSplit(prefix, name);
      assert q[..|prefix|] == prefix && q[|prefix| + 1..] == name;
    }
  }

  // ----- Registering providers.

  class ConfigRegistry {
    var providers: Registry

    constructor ()
      ensures providers == map[]
    {
      providers := map[];
    }

    method Add(prefix: string, provider: Provider) returns (r: Result<(), Error>)
      modifies this
      ensures prefix in old(providers) ==> r == Fail(PrefixTaken)
      ensures prefix !in old(providers) ==> (r.Ok? <==> DistinctNames(provider.properties))
      ensures r.Fail? ==> providers == old(providers)
      ensures r.Ok? ==> prefix in providers && providers == old(providers)[prefix := providers[prefix]]
      ensures r.Ok? ==> providers[prefix].provider == provider && ByName(provider.properties, providers[prefix].properties)
    {
      if prefix in providers { return Fail(PrefixTaken); }
      var properties: map<string, Property> := map[];
      for i := 0 to |provider.properties|
        invariant providers == old(providers)
        invariant DistinctNames(provider.properties[..i]) && ByName(provider.properties[..i], properties)
      {
        var p := provider.properties[i];
        assert provider.properties[..i + 1] == provider.properties[..i] + [p];
        if p.name in properties {
          assert !DistinctNames(provider.properties[..i + 1]);
          return Fail(DuplicateProperty);
        }
        properties := properties[p.name := p];
      }
      assert provider.properties[..|provider.properties|] == provider.properties;
      providers := providers[prefix := Registered(provider, properties)];
      r := Ok(());
    }
  }

  predicate DistinctNames(ps: seq<Property>) {
    forall i, j :: 0 <= i < j < |ps| ==> ps[i].name != ps[j].name
  }

  ghost predicate ByName(ps: seq<Property>, properties: map<string, Property>) {
    && (forall i :: 0 <= i < |ps| ==> ps[i].name in properties && properties[ps[i].name] == ps[i])
    && (forall n :: n in properties ==> exists i :: 0 <= i < |ps| && ps[i].name == n)
  }

  // ----- Several providers under one prefix.

  function AllProperties(providers: seq<Option<Provider>>): seq<Property> {
    if providers == [] then []
    else
      var n := |providers| - 1;
      AllProperties(providers[..n]) + match providers[n] case None => [] case Some(p) => p.properties
  }

  ghost function NamesIn(ps: seq<Property>): set<string> {
    set p | p in ps :: p.name
  }

  /** Each property with an owner is one of the owner's. */
  ghost predicate OwnedBy(providers: seq<Option<Provider>>, owners: map<string, nat>) {
    forall n :: n in owners ==>
      owners[n] < |providers| && providers[owners[n]].Some? && n in NamesIn(providers[owners[n]].value.properties)
  }

  /** Combines providers, absent ones aside; owners says who normalizes each property. */
  method CombineProviders(providers: seq<Option<Provider>>) returns (r: Result<(seq<Property>, map<string, nat>), Error>)
    ensures r == Fail(NoProvider) <==> forall i :: 0 <= i < |providers| ==> providers[i].None?
    ensures r.Ok? ==> r.value.0 == AllProperties(providers) && DistinctNames(r.value.0)
    ensures r.Ok? ==> OwnedBy(providers, r.value.1) && r.value.1.Keys == NamesIn(r.value.0)
    ensures r == Fail(DuplicateProperty) ==> !DistinctNames(AllProperties(providers))
    ensures r.Fail? ==> r.error == NoProvider || r.error == DuplicateProperty
  {
    if forall i :: 0 <= i < |providers| ==> providers[i].None? { return Fail(NoProvider); }
    var properties: seq<Property>, owners: map<string, nat> := [], map[];
    for i := 0 to |providers|
      invariant properties == AllProperties(providers[..i]) && DistinctNames(properties)
      invariant OwnedBy(providers, owners) && owners.Keys == NamesIn(properties)
    {
      assert providers[..i + 1][..i] == providers[..i];
      if providers[i].None? { continue; }
      var added := AddProvider(providers, i, properties, owners);
      if added.None? {
        PrefixOfAll(providers, i + 1);
        PrefixDistinct(AllProperties(providers), |AllProperties(providers[..i + 1])|);
        return Fail(DuplicateProperty);
      }
      properties, owners := added.value.0, added.value.1;
    }
    assert providers[..|providers|] == providers;
    r := Ok((properties, owners));
  }

  /** Adds the properties of one provider, unless one of them is there already. */
  method AddProvider(providers: seq<Option<Provider>>, i: nat, earlier: seq<Property>, known: map<string, nat>)
    returns (r: Option<(seq<Property>, map<string, nat>)>)
    requires i < |providers| && providers[i].Some? && DistinctNames(earlier)
    requires OwnedBy(providers, known) && known.Keys == NamesIn(earlier)
    ensures r.Some? <==> DistinctNames(earlier + providers[i].value.properties)
    ensures r.Some? ==> r.value.0 == earlier + providers[i].value.properties
    ensures r.Some? ==> OwnedBy(providers, r.value.1) && r.value.1.Keys == NamesIn(r.value.0)
  {
    var ps := providers[i].value.properties;
    var properties, owners := earlier, known;
    for k := 0 to |ps|
      invariant properties == earlier + ps[..k] && DistinctNames(properties)
      invariant OwnedBy(providers, owners) && owners.Keys == NamesIn(properties)
    {
      NextPrefix(earlier, ps, k);
      DistinctGrows(properties, ps[k]);
      if ps[k].name in owners {
        RepeatedName(earlier, ps, k);
        return None;
      }
      OwnerAdded(providers, owners, i, ps[k]);
      owners := owners[ps[k].name := i];
      properties := properties + [ps[k]];
    }
    assert ps[..|ps|] == ps;
    r := Some((properties, owners));
  }

  lemma {:induction false} RepeatedName(earlier: seq<Property>, ps: seq<Property>, k: nat)
    requires k < |ps| && !DistinctNames(earlier + ps[..k] + [ps[k]])
    ensures !DistinctNames(earlier + ps)
  {
    NextPrefix(earlier, ps, k);
    PrefixDistinct(earlier + ps, |earlier| + k + 1);
  }

  lemma {:induction false} NextPrefix(earlier: seq<Property>, ps: seq<Property>, k: nat)
    requires k < |ps|
    ensures earlier + ps[..k] + [ps[k]] == earlier + ps[..k + 1] == (earlier + ps)[..|earlier| + k + 1]
  {
  }

  lemma {:induction false} OwnerAdded(providers: seq<Option<Provider>>, owners: map<string, nat>, i: nat, p: Property)
    requires OwnedBy(providers, owners) && i < |providers| && providers[i].Some? && p in providers[i].value.properties
    ensures OwnedBy(providers, owners[p.name := i])
  {
  }

  lemma {:induction false} DistinctGrows(ps: seq<Property>, p: Property)
    requires DistinctNames(ps)
    ensures DistinctNames(ps + [p]) <==> p.name !in NamesIn(ps)
    ensures NamesIn(ps + [p]) == NamesIn(ps) + {p.name}
  {
    if p.name in NamesIn(ps) {
      var q :| q in ps && q.name == p.name;
      var i :| 0 <= i < |ps| && ps[i] == q;
      assert (ps + [p])[i].name == (ps + [p])[|ps|].name;
    }
    forall n | n in NamesIn(ps) + {p.name} ensures n in NamesIn(ps + [p]) {
      if n != p.name {
        var q :| q in ps && q.name == n;
        assert q in ps + [p];
      } else {
        assert p in ps + [p];
      }
    }
  }

  lemma {:induction false} PrefixDistinct(ps: seq<Property>, n: nat)
    requires n <= |ps| && !DistinctNames(ps[..n])
    ensures !DistinctNames(ps)
  {
  }

  lemma {:induction false} PrefixOfAll(providers: seq<Option<Provider>>, i: nat)
    requires i <= |providers|
    ensures |AllProperties(providers[..i])| <= |AllProperties(providers)|
    ensures AllProperties(providers)[..|AllProperties(providers[..i])|] == AllProperties(providers[..i])
    decreases |providers| - i
  {
    if i < |providers| {
      PrefixOfAll(providers, i + 1);
      assert providers[..i + 1][..i] == providers[..i];
    } else {
      assert providers[..i] == providers;
    }
  }

  // ----- Values.

  function Lower(c: char): char {
    if 'A' <= c <= 'Z' then (c as int + 32) as char else c
  }

  function Lowered(s: string): (r: string)
    ensures |r| == |s| && forall i :: 0 <= i < |s| ==> r[i] == Lower(s[i])
  {
    seq(|s|, i requires 0 <= i < |s| => Lower(s[i]))
  }

  predicate IsInteger(s: string) {
    var start := if s != "" && s[0] == '-' then 1 else 0;
    |s| > start && forall i :: start <= i < |s| ==> '0' <= s[i] <= '9'
  }

  function NormalizeType(isDouble: string -> bool, ty: PropertyType, value: string): (r: Option<string>)
    ensures r.Some? && ty.BooleanProperty? ==> r.value == "true" || r.value == "false"
    ensures r.Some? && !ty.BooleanProperty? ==> r.value == value
  {
    match ty
    case BooleanProperty => if Lowered(value) == "true" || Lowered(value) == "false" then Some(Lowered(value)) else None
    case IntegerProperty => if IsInteger(value) then Some(value) else None
    case DoubleProperty => if isDouble(value) then Some(value) else None
    case StringProperty => Some(value)
  }

  predicate SameLetters(s: string, t: string) {
    |s| == |t| && forall i :: 0 <= i < |s| ==> Lower(s[i]) == Lower(t[i])
  }

  /** Exactly which values each type takes, and as what: booleans in lower case, whatever case they
      are given in; digits after an optional minus; doubles as the parameter says; any text. */
  lemma {:induction false} NormalizedExactly(isDouble: string -> bool, ty: PropertyType, value: string, v: string)
    ensures NormalizeType(isDouble, ty, value) == Some(v) <==>
            match ty
            case BooleanProperty => (v == "true" || v == "false") && SameLetters(value, v)
            case IntegerProperty =>
              v == value && exists digits :: AllDigits(digits) && (value == digits || value == "-" + digits)
            case DoubleProperty => v == value && isDouble(value)
            case StringProperty => v == value
  {
    match ty
    case BooleanProperty =>
      if SameLetters(value, v) && (v == "true" || v == "false") { assert Lowered(value) == v; }
    case IntegerProperty =>
      IntegerText(value);
    case _ =>
  }

  predicate AllDigits(s: string) {
    s != "" && forall i :: 0 <= i < |s| ==> '0' <= s[i] <= '9'
  }

  lemma {:induction false} IntegerText(value: string)
    ensures IsInteger(value) <==> exists digits :: AllDigits(digits) && (value == digits || value == "-" + digits)
  {
    if IsInteger(value) {
      if value[0] == '-' {
        assert value == "-" + value[1..] && AllDigits(value[1..]);
      } else {
        assert AllDigits(value);
      }
    }
    if digits :| AllDigits(digits) && (value == digits || value == "-" + digits) {
      if value == digits {
        assert value[0] != '-';
      } else {
        SignedDigits(digits);
      }
    }
  }

  lemma {:induction false} SignedDigits(digits: string)
    requires AllDigits(digits)
    ensures IsInteger("-" + digits)
  {
    var value := "-" + digits;
    forall i | 1 <= i < |value| ensures '0' <= value[i] <= '9' {
      assert value[i] == digits[i - 1];
    }
  }

  /** A value normalized for its type stays as it is. */
  lemma {:induction false} NormalizedOnce(isDouble: string -> bool, ty: PropertyType, value: string)
    ensures var r := NormalizeType(isDouble, ty, value); r.Some? ==> NormalizeType(isDouble, ty, r.value) == r
  {
    assert Lowered("true") == "true" && Lowered("false") == "false";
  }

  // ----- A session's overrides.

  datatype Context = Context(registry: Registry, isDouble: string -> bool)

  datatype Op = Set(name: string, value: string) | Reset(name: string)

  function Normalized(ctx: Context, q: string, value: string): Result<string, Error> {
    match ResolveName(ctx.registry, q)
    case Fail(e) => Fail(e)
    case Ok(resolved) =>
      match NormalizeType(ctx.isDouble, resolved.property.ty, value)
      case None => Fail(InvalidValue)
      case Some(typed) =>
        match resolved.provider.normalize(resolved.property.name, typed) case None => Fail(InvalidValue) case Some(v) => Ok(v)
  }

  function DefaultOf(ctx: Context, q: string): Option<string>
    requires ResolveName(ctx.registry, q).Ok?
  {
    ResolveName(ctx.registry, q).value.property.default
  }

  function EffectiveValue(ctx: Context, overrides: map<string, string>, q: string): Result<Option<string>, Error> {
    if q in overrides then Ok(Some(overrides[q]))
    else match ResolveName(ctx.registry, q) case Fail(e) => Fail(e) case Ok(resolved) => Ok(resolved.property.default)
  }

  /** The overrides after an operation; a failed one leaves them alone. */
  function Step(ctx: Context, overrides: map<string, string>, op: Op): map<string, string> {
    match op
    case Set(q, value) =>
      (match Normalized(ctx, q, value)
       case Fail(_) => overrides
       case Ok(v) => if DefaultOf(ctx, q) == Some(v) then overrides - {q} else overrides[q := v])
    case Reset(q) => if ResolveName(ctx.registry, q).Ok? then overrides - {q} else overrides
  }

  function Run(ctx: Context, ops: seq<Op>): map<string, string> {
    if ops == [] then map[] else Step(ctx, Run(ctx, ops[..|ops| - 1]), ops[|ops| - 1])
  }

  /** Overrides have properties to override, and differ from their defaults. */
  ghost predicate Inv(ctx: Context, overrides: map<string, string>) {
    forall q :: q in overrides ==> ResolveName(ctx.registry, q).Ok? && DefaultOf(ctx, q) != Some(overrides[q])
  }

  lemma {:induction false} RunInv(ctx: Context, ops: seq<Op>)
    ensures Inv(ctx, Run(ctx, ops))
  {
    if ops != [] { RunInv(ctx, ops[..|ops| - 1]); }
  }

  /** What the last successful operation on a name left, or the default. */
  function Latest(ctx: Context, ops: seq<Op>, q: string): Option<string>
    requires ResolveName(ctx.registry, q).Ok?
  {
    if ops == [] then DefaultOf(ctx, q)
    else
      var last, earlier := ops[|ops| - 1], ops[..|ops| - 1];
      if last == Reset(q) then DefaultOf(ctx, q)
      else if last.Set? && last.name == q && Normalized(ctx, q, last.value).Ok? then Some(Normalized(ctx, q, last.value).value)
      else Latest(ctx, earlier, q)
  }

  /** After any operations every property has the value its last one gave it. */
  lemma {:induction false} LastWriteWins(ctx: Context, ops: seq<Op>, q: string)
    requires ResolveName(ctx.registry, q).Ok?
    ensures EffectiveValue(ctx, Run(ctx, ops), q) == Ok(Latest(ctx, ops, q))
  {
    if ops != [] { LastWriteWins(ctx, ops[..|ops| - 1], q); }
  }

  class SessionConfig {
    var overrides: map<string, string>
    const ctx: Context

    constructor (ctx: Context)
      ensures overrides == map[] && this.ctx == ctx && Inv(ctx, overrides)
    {
      overrides := map[];
      this.ctx := ctx;
    }

    /** Returns whether the effective value changed. */
    method SetValue(q: string, value: string) returns (r: Result<bool, Error>)
      requires Inv(ctx, overrides)
      modifies this
      ensures Inv(ctx, overrides) && overrides == Step(ctx, old(overrides), Set(q, value))
      ensures r.Fail? <==> Normalized(ctx, q, value).Fail?
      ensures r.Fail? ==> r.error == Normalized(ctx, q, value).error && overrides == old(overrides)
      ensures r.Ok? ==> (r.value <==> EffectiveValue(ctx, overrides, q) != old(EffectiveValue(ctx, overrides, q)))
      ensures r.Ok? ==> EffectiveValue(ctx, overrides, q) == Ok(Some(Normalized(ctx, q, value).value))
    {
      var normalized := Normalized(ctx, q, value);
      if normalized.Fail? { return Fail(normalized.error); }
      if DefaultOf(ctx, q) == Some(normalized.value) {
        var erased := q in overrides;
        overrides := overrides - {q};
        return Ok(erased);
      }
      if q in overrides && overrides[q] == normalized.value { return Ok(false); }
      overrides := overrides[q := normalized.value];
      r := Ok(true);
    }

    /** Returns whether the effective value changed. */
    method ResetValue(q: string) returns (r: Result<bool, Error>)
      requires Inv(ctx, overrides)
      modifies this
      ensures Inv(ctx, overrides) && overrides == Step(ctx, old(overrides), Reset(q))
      ensures r.Fail? <==> ResolveName(ctx.registry, q).Fail?
      ensures r.Ok? ==> (r.value <==> EffectiveValue(ctx, overrides, q) != old(EffectiveValue(ctx, overrides, q)))
      ensures r.Ok? ==> EffectiveValue(ctx, overrides, q) == Ok(DefaultOf(ctx, q))
    {
      var resolved := ResolveName(ctx.registry, q);
      if resolved.Fail? { return Fail(resolved.error); }
      var erased := q in overrides;
      overrides := overrides - {q};
      r := Ok(erased);
    }

    /** The effective values under a prefix; a property without one is left out. */
    method EffectiveValues(prefix: string) returns (values: map<string, string>)
      ensures values == ValuesUnder(ctx, overrides, prefix)
    {
      values := map[];
      var entries := AllEntries(ctx.registry);
      for i := 0 to |entries|
        invariant forall n :: n in values ==>
          (prefix in ctx.registry && n in ctx.registry[prefix].properties
           && CurrentValue(ctx, overrides, prefix, n) == Some(values[n]))
        invariant forall j :: 0 <= j < i && entries[j].0 == prefix ==>
          if CurrentValue(ctx, overrides, prefix, entries[j].1).Some? then entries[j].1 in values else entries[j].1 !in values
      {
        if entries[i].0 == prefix {
          var name := entries[i].1;
          var q := Qualified(prefix, name);
          var property := ctx.registry[prefix].properties[name];
          if q in overrides {
            values := values[name := overrides[q]];
          } else if property.default.Some? {
            values := values[name := property.default.value];
          }
        }
      }
      assert values.Keys == ValuesUnder(ctx, overrides, prefix).Keys by {
        forall n | n in ValuesUnder(ctx, overrides, prefix) ensures n in values {
          assert (prefix, n) in entries;
          var j :| 0 <= j < |entries| && entries[j] == (prefix, n);
        }
      }
    }

    /** Every property once, with its current value and whether it is overridden. */
    method All() returns (result: seq<Shown>)
      ensures forall i, j :: 0 <= i < j < |result| ==> (result[i].prefix, result[i].name) != (result[j].prefix, result[j].name)
      ensures forall e: Shown :: e in result ==>
        (e.prefix in ctx.registry && e.name in ctx.registry[e.prefix].properties
         && e.current == CurrentValue(ctx, overrides, e.prefix, e.name)
         && e.overridden == (Qualified(e.prefix, e.name) in overrides))
      ensures forall p, n :: p in ctx.registry && n in ctx.registry[p].properties ==> exists e :: e in result && e.prefix == p && e.name == n
    {
      result := [];
      var entries := AllEntries(ctx.registry);
      for i := 0 to |entries|
        invariant |result| == i
        invariant forall j :: 0 <= j < i ==>
          && (result[j].prefix, result[j].name) == entries[j]
          && result[j].current == CurrentValue(ctx, overrides, result[j].prefix, result[j].name)
          && result[j].overridden == (Qualified(result[j].prefix, result[j].name) in overrides)
      {
        var (prefix, name) := entries[i];
        var q := Qualified(prefix, name);
        var current: Option<string>;
        if q in overrides { current := Some(overrides[q]); } else { current := ctx.registry[prefix].properties[name].default; }
        result := result + [Shown(prefix, name, current, q in overrides)];
      }
      forall p, n | p in ctx.registry && n in ctx.registry[p].properties ensures exists e :: e in result && e.prefix == p && e.name == n {
        assert (p, n) in entries;
        var j :| 0 <= j < |entries| && entries[j] == (p, n);
        assert result[j] in result;
      }
    }
  }

  datatype Shown = Shown(prefix: string, name: string, current: Option<string>, overridden: bool)

  /** What effectiveValues and all read for a property. */
  function CurrentValue(ctx: Context, overrides: map<string, string>, prefix: string, name: string): Option<string>
    requires prefix in ctx.registry && name in ctx.registry[prefix].properties
  {
    if Qualified(prefix, name) in overrides then Some(overrides[Qualified(prefix, name)])
    else ctx.registry[prefix].properties[name].default
  }

  ghost function ValuesUnder(ctx: Context, overrides: map<string, string>, prefix: string): map<string, string> {
    if prefix !in ctx.registry then map[]
    else
      map n | n in ctx.registry[prefix].properties && CurrentValue(ctx, overrides, prefix, n).Some?
        :: CurrentValue(ctx, overrides, prefix, n).value
  }

  /** Every registered property once, in an order of no significance. */
  method AllEntries(registry: Registry) returns (entries: seq<(string, string)>)
    ensures forall p, n :: (p, n) in entries <==> p in registry && n in registry[p].properties
    ensures forall i, j :: 0 <= i < j < |entries| ==> entries[i] != entries[j]
  {
    entries := [];
    var prefixes := registry.Keys;
    while prefixes != {}
      invariant prefixes <= registry.Keys
      invariant forall p, n :: (p, n) in entries <==> p in registry && p !in prefixes && n in registry[p].properties
      invariant forall i, j :: 0 <= i < j < |entries| ==> entries[i] != entries[j]
      decreases prefixes
    {
      var prefix :| prefix in prefixes;
      prefixes := prefixes - {prefix};
      var names := registry[prefix].properties.Keys;
      while names != {}
        invariant names <= registry[prefix].properties.Keys
        invariant forall p, n :: (p, n) in entries <==>
          p in registry && n in registry[p].properties && p !in prefixes && (p == prefix ==> n !in names)
        invariant forall i, j :: 0 <= i < j < |entries| ==> entries[i] != entries[j]
        decreases names
      {
        var name :| name in names;
        names := names - {name};
        entries := entries + [(prefix, name)];
      }
    }
  }

  /** The three reads agree on every property whose prefix has no dot. */
  lemma {:induction false} ReadsAgree(ctx: Context, overrides: map<string, string>, prefix: string, name: string)
    requires prefix in ctx.registry && name in ctx.registry[prefix].properties && '.' !in prefix
    ensures EffectiveValue(ctx, overrides, Qualified(prefix, name)) == Ok(CurrentValue(ctx, overrides, prefix, name))
    ensures name in ValuesUnder(ctx, overrides, prefix) <==> CurrentValue(ctx, overrides, prefix, name).Some?
    ensures name in ValuesUnder(ctx, overrides, prefix) ==>
              EffectiveValue(ctx, overrides, Qualified(prefix, name)) == Ok(Some(ValuesUnder(ctx, overrides, prefix)[name]))
  {
    ResolvesBack(ctx.registry, prefix, name);
  }

  ghost predicate AgreeAfter(ctx: Context, ops: seq<Op>, prefix: string, name: string)
    requires prefix in ctx.registry && name in ctx.registry[prefix].properties
  {
    EffectiveValue(ctx, Run(ctx, ops), Qualified(prefix, name)) == Ok(CurrentValue(ctx, Run(ctx, ops), prefix, name))
  }

  /** The property of a dot-free prefix answers to the qualified name. */
  ghost predicate Answers(registry: Registry, p: string, n: string, q: string) {
    p in registry && n in registry[p].properties && '.' !in p && Qualified(p, n) == q
  }

  lemma {:induction false} ResolvesToAnswer(registry: Registry, q: string)
    ensures ResolveName(registry, q).Ok? ==>
              var r := ResolveName(registry, q).value;
              Answers(registry, r.prefix, r.name, q) && registry[r.prefix].properties[r.name] == r.property
    ensures forall p, n :: Answers(registry, p, n, q) ==>
              ResolveName(registry, q) == Ok(Resolution(p, n, registry[p].provider, registry[p].properties[n]))
  {
    if ResolveName(registry, q).Ok? {
      var dot := FirstDot(q).value;
      assert q == q[..dot] + [q[dot]] + q[dot + 1..] == Qualified(q[..dot], q[dot + 1..]);
    }
    forall p, n | Answers(registry, p, n, q)
      ensures ResolveName(registry, q) == Ok(Resolution(p, n, registry[p].provider, registry[p].properties[n]))
    {
      ResolvesBack(registry, p, n);
    }
  }

  /** A value is accepted for a name exactly when the name is that of a property of a dot-free prefix
      and the value is one for its type and its provider; what is kept is what the provider makes of
      the value normalized for the type. */
  lemma {:induction false} AcceptedExactly(ctx: Context, q: string, value: string, v: string)
    ensures Normalized(ctx, q, value) == Ok(v) <==>
            exists p, n :: Answers(ctx.registry, p, n, q) && Provided(ctx, ctx.registry[p], n, value, v)
    ensures forall p, n :: Answers(ctx.registry, p, n, q) ==>
              ResolveName(ctx.registry, q).Ok? && DefaultOf(ctx, q) == ctx.registry[p].properties[n].default
  {
    ResolvesToAnswer(ctx.registry, q);
    if Normalized(ctx, q, value) == Ok(v) {
      var r := ResolveName(ctx.registry, q).value;
      assert Answers(ctx.registry, r.prefix, r.name, q) && Provided(ctx, ctx.registry[r.prefix], r.name, value, v);
    }
  }

  ghost predicate Provided(ctx: Context, r: Registered, n: string, value: string, v: string)
    requires n in r.properties
  {
    var typed := NormalizeType(ctx.isDouble, r.properties[n].ty, value);
    typed.Some? && r.provider.normalize(r.properties[n].name, typed.value) == Some(v)
  }

  /** The reads agree after all operations exactly when the prefix has no dot, or the qualified
      name is also that of a property with the same default whose prefix has none. */
  lemma {:induction false} ReadsAgreeExactly(ctx: Context, prefix: string, name: string)
    requires prefix in ctx.registry && name in ctx.registry[prefix].properties
    ensures (forall ops :: AgreeAfter(ctx, ops, prefix, name))
       <==> ('.' !in prefix
             || exists p, n :: Answers(ctx.registry, p, n, Qualified(prefix, name))
                  && ctx.registry[p].properties[n].default == ctx.registry[prefix].properties[name].default)
  {
    var q := Qualified(prefix, name);
    ResolvesToAnswer(ctx.registry, q);
    assert '.' !in prefix ==> Answers(ctx.registry, prefix, name, q);
    assert Run(ctx, []) == map[];
    if forall ops :: AgreeAfter(ctx, ops, prefix, name) {
      assert AgreeAfter(ctx, [], prefix, name);
      var r := ResolveName(ctx.registry, q).value;
      assert Answers(ctx.registry, r.prefix, r.name, q);
    }
  }

  /** Under prefixes "a" and "a.b", setting a's property "b.c" also changes what is read for
      a.b's property "c". */
  lemma {:induction false} DottedPrefixLeaks(ctx: Context, value: string)
    requires "a" in ctx.registry && "a.b" in ctx.registry
    requires "b.c" in ctx.registry["a"].properties && "c" in ctx.registry["a.b"].properties
    requires Normalized(ctx, "a.b.c", value).Ok? && DefaultOf(ctx, "a.b.c") != Some(Normalized(ctx, "a.b.c", value).value)
    ensures CurrentValue(ctx, Run(ctx, [Set("a.b.c", value)]), "a.b", "c") == Some(Normalized(ctx, "a.b.c", value).value)
  {
    assert Qualified("a.b", "c") == "a.b.c";
    assert [Set("a.b.c", value)][..0] == [];
    assert Run(ctx, []) == map[];
  }
}
