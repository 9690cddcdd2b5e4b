/** Unique names from hints. The 32-bit id counter is an unbounded one here. */
module NameAllocator {
  import opened Wrappers

  // ----- Decimal printing.

  function Digit(d: nat): char
    requires d < 10
  {
    ('0' as int + d) as char
  }

  function Decimal(n: nat): (s: string)
    ensures s != "" && AllDigits(s)
  {
    if n < 10 then [Digit(n)] else Decimal(n / 10) + [Digit(n % 10)]
  }

  predicate AllDigits(s: string) {
    forall k :: 0 <= k < |s| ==> '0' <= s[k] <= '9'
  }

  function ValueOf(s: string): nat
    requires AllDigits(s)
  {
    if s == "" then 0 else 10 * ValueOf(s[..|s| - 1]) + (s[|s| - 1] as int - '0' as int)
  }

  lemma {:induction false} DecimalValue(n: nat)
    ensures ValueOf(Decimal(n)) == n
  {
    if n >= 10 {
      DecimalValue(n / 10);
      assert Decimal(n)[..|Decimal(n)| - 1] == Decimal(n / 10);
    } else {
      assert Decimal(n)[..0] == "";
    }
  }

  // ----- Names.

  /** The position of the last underscore. */
  function LastUnderscore(s: string): (r: Option<nat>)
    ensures r.Some? ==> r.value < |s| && s[r.value] == '_' && '_' !in s[r.value + 1..]
    ensures r.None? ==> '_' !in s
  {
    if s == "" then None
    else if s[|s| - 1] == '_' then Some(|s| - 1)
    else
      assert s == s[..|s| - 1] + [s[|s| - 1]];
      match LastUnderscore(s[..|s| - 1])
      case None => None
      case Some(p) =>
        assert s[p + 1..] == s[..|s| - 1][p + 1..] + [s[|s| - 1]];
        Some(p)
  }

  /** The hint without a trailing '_<digits>'; "expr" if nothing is left. */
  function Prefix(hint: string): string {
    var kept :=
      match LastUnderscore(hint)
      case Some(p) => if p + 1 < |hint| && AllDigits(hint[p + 1..]) then hint[..p] else hint
      case None => hint;
    if kept == "" then "expr" else kept
  }

  /** A hint that ends in '_<digits>' loses just that; any other is kept; nothing left is "expr". */
  lemma {:induction false} PrefixExact(hint: string)
    ensures forall p, digits :: hint == p + "_" + digits && digits != "" && AllDigits(digits) ==>
              Prefix(hint) == if p == "" then "expr" else p
    ensures (forall p, digits :: hint == p + "_" + digits && digits != "" ==> !AllDigits(digits)) ==>
              Prefix(hint) == if hint == "" then "expr" else hint
  {
    forall p, digits | hint == p + "_" + digits && digits != "" && AllDigits(digits)
      ensures Prefix(hint) == if p == "" then "expr" else p
    {
      LastSplit(hint, p, digits);
    }
    var last := LastUnderscore(hint);
    if last.Some? {
      var k := last.value;
      assert hint == hint[..k] + "_" + hint[k + 1..];
    }
  }

  lemma {:induction false} LastSplit(hint: string, p: string, digits: string)
    requires hint == p + "_" + digits && AllDigits(digits)
    ensures LastUnderscore(hint) == Some(|p|) && hint[..|p|] == p && hint[|p| + 1..] == digits
  {
    assert hint[|p|] == '_' && hint[|p| + 1..] == digits && hint[..|p|] == p;
    var k := LastUnderscore(hint).value;
    assert forall i :: |p| < i < |hint| ==> hint[i] == digits[i - |p| - 1];
    assert k <= |p|;
  }

  function Generated(prefix: string, k: nat): string {
    prefix + "_" + Decimal(k)
  }

  lemma {:induction false} GeneratedInjective(prefix: string, j: nat, k: nat)
    ensures Generated(prefix, j) == Generated(prefix, k) <==> j == k
  {
    if Generated(prefix, j) == Generated(prefix, k) {
      assert Generated(prefix, j)[|prefix| + 1..] == Decimal(j);
      assert Generated(prefix, k)[|prefix| + 1..] == Decimal(k);
      DecimalValue(j);
      DecimalValue(k);
    }
  }

  /** Stripping a generated name gives its prefix back. */
  lemma {:induction false} PrefixOfGenerated(prefix: string, k: nat)
    requires prefix != ""
    ensures Prefix(Generated(prefix, k)) == prefix
  {
    var name := Generated(prefix, k);
    var p := LastUnderscore(name);
    assert name[|prefix|] == '_' && name[|prefix| + 1..] == Decimal(k);
    assert p.Some?;
    assert forall i :: |prefix| < i < |name| ==> name[i] == Decimal(k)[i - |prefix| - 1];
    assert p.value <= |prefix|;
    assert name[..|prefix|] == prefix;
  }

  /** The allocated names of the form prefix_j with j at or above k. */
  ghost function Taken(names: set<string>, prefix: string, k: nat): set<string> {
    set n | n in names && exists j: nat :: k <= j && n == Generated(prefix, j)
  }

  lemma {:induction false} TakenShrinks(names: set<string>, prefix: string, k: nat)
    requires Generated(prefix, k) in names
    ensures Taken(names, prefix, k + 1) < Taken(names, prefix, k)
  {
    assert Generated(prefix, k) in Taken(names, prefix, k);
    if Generated(prefix, k) in Taken(names, prefix, k + 1) {
      var j: nat :| k + 1 <= j && Generated(prefix, k) == Generated(prefix, j);
      GeneratedInjective(prefix, k, j);
    }
  }

  /** The first number at or above k whose name is free. */
  ghost function FirstFree(names: set<string>, prefix: string, k: nat): (free: nat)
    ensures free >= k && Generated(prefix, free) !in names
    ensures forall j :: k <= j < free ==> Generated(prefix, j) in names
    decreases Taken(names, prefix, k)
  {
    if Generated(prefix, k) !in names then k
    else
      TakenShrinks(names, prefix, k);
      FirstFree(names, prefix, k + 1)
  }

  lemma {:induction false} LeastIsFirst(names: set<string>, prefix: string, k: nat, free: nat)
    requires k <= free && Generated(prefix, free) !in names
    requires forall j: nat :: k <= j < free ==> Generated(prefix, j) in names
    ensures FirstFree(names, prefix, k) == free
  {
  }

  datatype State = State(names: set<string>, nextId: nat)

  /** The name a hint gets. */
  ghost function Chosen(s: State, hint: string): string {
    if Prefix(hint) !in s.names then Prefix(hint)
    else Generated(Prefix(hint), FirstFree(s.names, Prefix(hint), s.nextId))
  }

  ghost function Next(s: State, hint: string): State {
    State(s.names + {Chosen(s, hint)},
      if Prefix(hint) !in s.names then s.nextId else FirstFree(s.names, Prefix(hint), s.nextId) + 1)
  }

  class NameAllocator {
    var names: set<string>
    var nextId: nat

    ghost function View(): State
      reads this
    {
      State(names, nextId)
    }

    constructor ()
      ensures View() == State({}, 0)
    {
      names, nextId := {}, 0;
    }

    /** None for an empty hint, which the source rejects. */
    method NewName(hint: string) returns (r: Option<string>)
      modifies this
      ensures hint == "" ==> r == None && View() == old(View())
      ensures hint != "" ==> r == Some(Chosen(old(View()), hint)) && View() == Next(old(View()), hint)
    {
      if hint == "" { return None; }
      var prefix := Prefix(hint);
      var name := prefix;
      ghost var tried := false;
      while name in names
        invariant names == old(names) && old(nextId) <= nextId && (tried <==> old(nextId) < nextId)
        invariant if tried then name == Generated(prefix, nextId - 1) && prefix in names else name == prefix
        invariant forall j: nat :: old(nextId) <= j < nextId - 1 ==> Generated(prefix, j) in names
        decreases !tried, Taken(names, prefix, if tried then nextId - 1 else 0)
      {
        if tried { TakenShrinks(names, prefix, nextId - 1); }
        name := Generated(prefix, nextId);
        nextId := nextId + 1;
        tried := true;
      }
      if tried { LeastIsFirst(names, prefix, old(nextId), nextId - 1); }
      names := names + {name};
      r := Some(name);
    }

    method Reset()
      modifies this
      ensures View() == State({}, 0)
    {
      names, nextId := {}, 0;
    }
  }

  // ----- Any sequence of calls.

  ghost function Run(s: State, hints: seq<string>): State {
    if hints == [] then s else Next(Run(s, hints[..|hints| - 1]), hints[|hints| - 1])
  }

  ghost function Results(s: State, hints: seq<string>): (names: seq<string>)
    ensures |names| == |hints|
  {
    if hints == [] then []
    else
      var earlier := hints[..|hints| - 1];
      Results(s, earlier) + [Chosen(Run(s, earlier), hints[|hints| - 1])]
  }

  /** Over any calls, all names are non-empty, new and pairwise distinct, and exactly they are
      added to the allocated names. */
  lemma {:induction false} NamesAreUnique(s: State, hints: seq<string>)
    ensures forall i :: 0 <= i < |hints| ==> Results(s, hints)[i] != "" && Results(s, hints)[i] !in s.names
    ensures forall i, j :: 0 <= i < j < |hints| ==> Results(s, hints)[i] != Results(s, hints)[j]
    ensures Run(s, hints).names == s.names + set i | 0 <= i < |hints| :: Results(s, hints)[i]
    ensures Run(s, hints).nextId >= s.nextId
  {
    if hints != [] {
      var n := |hints| - 1;
      NamesAreUnique(s, hints[..n]);
      var before, last := Results(s, hints[..n]), Results(s, hints)[n];
      assert last !in Run(s, hints[..n]).names;
      assert forall i :: 0 <= i < n ==> Results(s, hints)[i] == before[i] && before[i] in Run(s, hints[..n]).names;
    }
  }

  lemma {:induction false} ResultAt(s: State, hints: seq<string>, i: nat)
    requires i < |hints|
    ensures Results(s, hints)[i] == Chosen(Run(s, hints[..i]), hints[i])
  {
    var n := |hints| - 1;
    LastResult(s, hints);
    if i < n {
      ResultAt(s, hints[..n], i);
      assert hints[..n][..i] == hints[..i] && hints[..n][i] == hints[i];
    }
  }

  lemma {:induction false} LastResult(s: State, hints: seq<string>)
    requires hints != []
    ensures var n := |hints| - 1;
            && Results(s, hints)[n] == Chosen(Run(s, hints[..n]), hints[n])
            && forall i :: 0 <= i < n ==> Results(s, hints)[i] == Results(s, hints[..n])[i]
  {
  }

  lemma {:induction false} IdsGrow(s: State, hints: seq<string>, i: nat)
    requires i <= |hints|
    ensures Run(s, hints[..i]).nextId <= Run(s, hints).nextId
  {
    var n := |hints| - 1;
    if i == |hints| {
      assert hints[..i] == hints;
    } else {
      IdsGrow(s, hints[..n], i);
      assert hints[..n][..i] == hints[..i];
    }
  }

  /** Numbers only go up, whatever the hints: each name that needs one gets a greater one than all
      before it. */
  lemma {:induction false} NumbersIncrease(s: State, hints: seq<string>, i: nat, j: nat) returns (m: nat, n: nat)
    requires i < j < |hints|
    requires Prefix(hints[i]) in Run(s, hints[..i]).names && Prefix(hints[j]) in Run(s, hints[..j]).names
    ensures Results(s, hints)[i] == Generated(Prefix(hints[i]), m) && Results(s, hints)[j] == Generated(Prefix(hints[j]), n)
    ensures s.nextId <= m < n
  {
    ResultAt(s, hints, i);
    ResultAt(s, hints, j);
    var before, between := Run(s, hints[..i]), Run(s, hints[..j]);
    m := FirstFree(before.names, Prefix(hints[i]), before.nextId);
    n := FirstFree(between.names, Prefix(hints[j]), between.nextId);
    assert hints[..j][..i + 1] == hints[..i + 1] && hints[..i + 1][..i] == hints[..i];
    IdsGrow(s, hints[..j], i + 1);
    assert hints[..i][..0] == [] && Run(s, []) == s;
    IdsGrow(s, hints[..i], 0);
  }

  /** A hint not allocated yet is not always returned as it is: its numeric suffix is stripped
      first. It is returned exactly when it has none to strip, or when the prefix is taken and
      the suffix is the first number not below the next id whose name is free. */
  lemma {:induction false} UniqueHintReturned(s: State, hint: string)
    requires hint != "" && hint !in s.names
    ensures Chosen(s, hint) == hint <==>
            || Prefix(hint) == hint
            || (Prefix(hint) in s.names &&
                exists k: nat :: s.nextId <= k && hint == Generated(Prefix(hint), k) &&
                                 forall j: nat :: s.nextId <= j < k ==> Generated(Prefix(hint), j) in s.names)
  {
    if k: nat :| s.nextId <= k && hint == Generated(Prefix(hint), k) &&
                 forall j: nat :: s.nextId <= j < k ==> Generated(Prefix(hint), j) in s.names {
      LeastIsFirst(s.names, Prefix(hint), s.nextId, k);
    }
  }

  /** A fresh allocator renames "a_5". */
  lemma {:induction false} UniqueHintRenamed()
    ensures Chosen(State({}, 0), "a_5") == "a"
  {
    assert Decimal(5) == "5";
    assert Generated("a", 5) == "a_5";
    PrefixOfGenerated("a", 5);
  }

  /** Generating again from a generated name replaces its number rather than adding another. */
  lemma {:induction false} RegenerationKeepsPrefix(s: State, prefix: string, k: nat)
    requires prefix != "" && prefix in s.names && Prefix(prefix) == prefix
    ensures Chosen(s, Generated(prefix, k)) == Chosen(s, prefix)
  {
    PrefixOfGenerated(prefix, k);
  }
}
