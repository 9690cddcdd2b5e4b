/** Query ids: a timestamp, a counter of five digits and a suffix. Readings of the wall clock, in
    seconds, and the calendar's text for a second are parameters. The 32-bit counter is unbounded
    here; it never exceeds 100,000. */
module QueryIds {
  import Allocation = NameAllocator

  /** The reading at each tick. */
  type Clock = nat -> int

  /** Whole days, truncated toward zero. */
  function Days(seconds: int): int {
    if seconds >= 0 then seconds / 86400 else -((-seconds) / 86400)
  }

  datatype Generator = Generator(days: int, seconds: int, counter: nat, tick: nat)

  const Initial := Generator(0, 0, 0, 0)

  /** The clock does not show one second forever. */
  ghost predicate MovesOn(clock: Clock) {
    forall tick: nat, second: int :: Leaves(clock, tick, second)
  }

  ghost predicate Leaves(clock: Clock, tick: nat, second: int) {
    exists k: nat :: tick <= k && clock(k) != second
  }

  /** The first tick from which the clock shows another second. */
  ghost function FirstOther(clock: Clock, tick: nat, second: int, later: nat): (k: nat)
    requires tick <= later && clock(later) != second
    ensures k >= tick && clock(k) != second && forall j :: tick <= j < k ==> clock(j) == second
    decreases later - tick
  {
    if clock(tick) != second then tick else FirstOther(clock, tick + 1, second, later)
  }

  ghost function WaitUntil(clock: Clock, tick: nat, second: int): (k: nat)
    requires MovesOn(clock)
    ensures k >= tick && clock(k) != second && forall j :: tick <= j < k ==> clock(j) == second
  {
    assert Leaves(clock, tick, second);
    var w: nat :| tick <= w && clock(w) != second;
    FirstOther(clock, tick, second, w)
  }

  /** The generator after one id. An exhausted counter waits for another second first. */
  ghost function Next(clock: Clock, g: Generator): Generator
    requires MovesOn(clock)
  {
    var full := g.counter > 99_999;
    var tick := if full then WaitUntil(clock, g.tick, g.seconds) + 1 else g.tick;
    var now := clock(tick);
    var newDay := now != g.seconds && Days(now) != g.days;
    Generator(if newDay then Days(now) else g.days, now, (if full || newDay then 0 else g.counter) + 1, tick + 1)
  }

  ghost function After(clock: Clock, calls: nat): Generator
    requires MovesOn(clock)
  {
    if calls == 0 then Initial else Next(clock, After(clock, calls - 1))
  }

  /** The second and the counter of each id. */
  ghost function SecondOf(clock: Clock, call: nat): int
    requires MovesOn(clock)
  {
    After(clock, call + 1).seconds
  }

  ghost function CounterOf(clock: Clock, call: nat): nat
    requires MovesOn(clock)
  {
    After(clock, call + 1).counter - 1
  }

  ghost predicate Steady(clock: Clock) {
    clock(0) > 0 && forall i: nat, j: nat :: i <= j ==> clock(i) <= clock(j)
  }

  lemma {:induction false} CounterFits(clock: Clock, call: nat)
    requires MovesOn(clock)
    ensures CounterOf(clock, call) <= 99_999
  {
    if call > 0 { CounterFits(clock, call - 1); }
  }

  ghost predicate Inv(clock: Clock, g: Generator) {
    if g.tick == 0 then g == Initial else g.seconds == clock(g.tick - 1) && g.days == Days(g.seconds)
  }

  lemma {:induction false} AfterInv(clock: Clock, calls: nat)
    requires MovesOn(clock) && Steady(clock)
    ensures Inv(clock, After(clock, calls))
  {
    if calls > 0 { AfterInv(clock, calls - 1); }
  }

  ghost predicate Before(clock: Clock, i: nat, j: nat)
    requires MovesOn(clock)
  {
    SecondOf(clock, i) < SecondOf(clock, j)
    || (SecondOf(clock, i) == SecondOf(clock, j) && CounterOf(clock, i) < CounterOf(clock, j))
  }

  lemma {:induction false} NextIsLater(clock: Clock, call: nat)
    requires MovesOn(clock) && Steady(clock)
    ensures Before(clock, call, call + 1)
  {
    var g := After(clock, call + 1);
    AfterInv(clock, call + 1);
    var h := Next(clock, g);
    assert h == After(clock, call + 2) && g.tick > 0;
    assert clock(g.tick - 1) <= clock(h.tick - 1);
    if g.counter > 99_999 {
      var k := WaitUntil(clock, g.tick, g.seconds);
      assert clock(g.tick - 1) <= clock(k) <= clock(k + 1);
    }
  }

  /** While the clock does not go back, seconds and counters of the ids strictly increase, across
      waits for an exhausted counter and across midnights. */
  lemma {:induction false} StrictlyIncreasing(clock: Clock, i: nat, j: nat)
    requires MovesOn(clock) && Steady(clock) && i < j
    ensures Before(clock, i, j)
    decreases j - i
  {
    if j > i + 1 { StrictlyIncreasing(clock, i, j - 1); }
    NextIsLater(clock, j - 1);
  }

  // ----- The printed ids.

  function Zeros(n: nat): (s: string)
    ensures |s| == n && Allocation.AllDigits(s)
  {
    seq(n, _ => '0')
  }

  function Padded(n: nat): (s: string)
    ensures Allocation.AllDigits(s)
  {
    var digits := Allocation.Decimal(n);
    if |digits| >= 5 then digits else Zeros(5 - |digits|) + digits
  }

  function Id(stamp: int -> string, second: int, counter: nat, suffix: string): string {
    stamp(second) + "_" + Padded(counter) + "_" + suffix
  }

  lemma {:induction false} DecimalLength(n: nat, width: nat)
    requires width >= 1 && n < Power10(width)
    ensures |Allocation.Decimal(n)| <= width
  {
    if n >= 10 {
      assert Power10(width) == 10 * Power10(width - 1) && Power10(0) == 1;
      DecimalLength(n / 10, width - 1);
    }
  }

  function Power10(n: nat): (p: nat)
    ensures p >= 1
  {
    if n == 0 then 1 else 10 * Power10(n - 1)
  }

  lemma {:induction false} ZerosKeepValue(n: nat, s: string)
    requires Allocation.AllDigits(s)
    ensures Allocation.ValueOf(Zeros(n) + s) == Allocation.ValueOf(s)
  {
    var all := Zeros(n) + s;
    if s == "" {
      assert all == Zeros(n);
      if n > 0 {
        assert Zeros(n)[..n - 1] == Zeros(n - 1);
        assert Zeros(n - 1) + "" == Zeros(n - 1);
        ZerosKeepValue(n - 1, "");
      }
    } else {
      assert all[..|all| - 1] == Zeros(n) + s[..|s| - 1];
      ZerosKeepValue(n, s[..|s| - 1]);
    }
  }

  lemma {:induction false} PaddedIsFiveDigits(n: nat)
    requires n <= 99_999
    ensures |Padded(n)| == 5 && Allocation.ValueOf(Padded(n)) == n
  {
    assert Power10(5) == 100_000 by {
      assert Power10(2) == 100;
      assert Power10(4) == 10_000;
    }
    DecimalLength(n, 5);
    Allocation.DecimalValue(n);
    ZerosKeepValue(5 - |Allocation.Decimal(n)|, Allocation.Decimal(n));
  }

  /** Texts of seconds all have one length, and differ for different seconds. */
  ghost predicate ValidStamp(stamp: int -> string) {
    (forall a, b :: |stamp(a)| == |stamp(b)|) && forall a, b :: stamp(a) == stamp(b) ==> a == b
  }

  lemma {:induction false} IdDetermines(stamp: int -> string, s: int, c: nat, t: int, d: nat, suffix: string)
    requires ValidStamp(stamp) && c <= 99_999 && d <= 99_999
    requires Id(stamp, s, c, suffix) == Id(stamp, t, d, suffix)
    ensures s == t && c == d
  {
    var id := Id(stamp, s, c, suffix);
    var n := |stamp(s)|;
    assert n == |stamp(t)|;
    PaddedIsFiveDigits(c);
    PaddedIsFiveDigits(d);
    assert id[..n] == stamp(s) && id[..n] == stamp(t);
    assert id[n + 1..n + 6] == Padded(c) && id[n + 1..n + 6] == Padded(d);
  }

  /** So no two ids of a generator are the same while the clock does not go back. */
  lemma {:induction false} IdsDiffer(clock: Clock, stamp: int -> string, suffix: string, i: nat, j: nat)
    requires MovesOn(clock) && Steady(clock) && ValidStamp(stamp) && i < j
    ensures Id(stamp, SecondOf(clock, i), CounterOf(clock, i), suffix) != Id(stamp, SecondOf(clock, j), CounterOf(clock, j), suffix)
  {
    StrictlyIncreasing(clock, i, j);
    CounterFits(clock, i);
    CounterFits(clock, j);
    if Id(stamp, SecondOf(clock, i), CounterOf(clock, i), suffix) == Id(stamp, SecondOf(clock, j), CounterOf(clock, j), suffix) {
      IdDetermines(stamp, SecondOf(clock, i), CounterOf(clock, i), SecondOf(clock, j), CounterOf(clock, j), suffix);
    }
  }

  // ----- Clocks that go back.

  /** The call starts the counter again: it is exhausted, or the day is another one. */
  ghost predicate Resets(clock: Clock, call: nat)
    requires MovesOn(clock)
  {
    var g := After(clock, call);
    g.counter > 99_999 || (SecondOf(clock, call) != g.seconds && Days(SecondOf(clock, call)) != g.days)
  }

  /** The last call up to this one that started the counter again, or the first. */
  ghost function LastReset(clock: Clock, call: nat): (r: nat)
    requires MovesOn(clock)
    ensures r <= call && forall k :: r < k <= call ==> !Resets(clock, k)
  {
    if call == 0 || Resets(clock, call) then call else LastReset(clock, call - 1)
  }

  /** The counter is the number of ids since then. */
  lemma {:induction false} CounterCounts(clock: Clock, call: nat)
    requires MovesOn(clock)
    ensures CounterOf(clock, call) == call - LastReset(clock, call)
  {
    if call > 0 { CounterCounts(clock, call - 1); }
  }

  /** Under any clock, going back or not: two ids are the same exactly when they show the same
      second and as many ids came since the last reset before each. */
  lemma {:induction false} RepeatsExactly(clock: Clock, stamp: int -> string, suffix: string, i: nat, j: nat)
    requires MovesOn(clock) && ValidStamp(stamp)
    ensures Id(stamp, SecondOf(clock, i), CounterOf(clock, i), suffix) == Id(stamp, SecondOf(clock, j), CounterOf(clock, j), suffix)
       <==> SecondOf(clock, i) == SecondOf(clock, j) && i - LastReset(clock, i) == j - LastReset(clock, j)
  {
    CounterFits(clock, i);
    CounterFits(clock, j);
    CounterCounts(clock, i);
    CounterCounts(clock, j);
    if Id(stamp, SecondOf(clock, i), CounterOf(clock, i), suffix) == Id(stamp, SecondOf(clock, j), CounterOf(clock, j), suffix) {
      IdDetermines(stamp, SecondOf(clock, i), CounterOf(clock, i), SecondOf(clock, j), CounterOf(clock, j), suffix);
    }
  }

  /** So a repeat needs a reset in between, and ids between resets differ. */
  lemma {:induction false} NoRepeatWithoutReset(clock: Clock, stamp: int -> string, suffix: string, i: nat, j: nat)
    requires MovesOn(clock) && ValidStamp(stamp) && i < j && forall k :: i < k <= j ==> !Resets(clock, k)
    ensures Id(stamp, SecondOf(clock, i), CounterOf(clock, i), suffix) != Id(stamp, SecondOf(clock, j), CounterOf(clock, j), suffix)
  {
    RepeatsExactly(clock, stamp, suffix, i, j);
    SameReset(clock, i, j);
  }

  lemma {:induction false} SameReset(clock: Clock, i: nat, j: nat)
    requires MovesOn(clock) && i <= j && forall k :: i < k <= j ==> !Resets(clock, k)
    ensures LastReset(clock, i) == LastReset(clock, j)
  {
    if i < j { SameReset(clock, i, j - 1); }
  }

  /** A clock that repeats one: it goes to the next day, which resets the counter, and back, which
      resets it again. */
  lemma {:induction false} GoingBackRepeats(clock: Clock)
    requires MovesOn(clock)
    requires clock(0) == 86_399 + 86_400 && clock(1) == 2 * 86_400 && clock(2) == clock(0)
    ensures SecondOf(clock, 0) == SecondOf(clock, 2) && CounterOf(clock, 0) == CounterOf(clock, 2)
  {
    assert After(clock, 1) == Generator(1, clock(0), 1, 1);
    assert After(clock, 2) == Generator(2, clock(1), 1, 2);
    assert After(clock, 3) == Generator(1, clock(2), 1, 3);
  }

  class QueryIdGenerator {
    var days: int
    var seconds: int
    var counter: nat
    var timestamp: string
    const suffix: string
    const stamp: int -> string

    ghost function View(tick: nat): Generator
      reads this
    {
      Generator(days, seconds, counter, tick)
    }

    constructor (suffix: string, stamp: int -> string)
      ensures View(0) == Initial && this.suffix == suffix && this.stamp == stamp && timestamp == ""
    {
      days, seconds, counter, timestamp := 0, 0, 0, "";
      this.suffix, this.stamp := suffix, stamp;
    }

    /** tick: the readings of the clock taken before; next: with those of this call. */
    method CreateNextQueryId(clock: Clock, tick: nat) returns (id: string, next: nat)
      requires MovesOn(clock)
      requires timestamp == stamp(seconds) || (seconds == 0 && clock(tick) != 0 && counter == 0)
      modifies this
      ensures View(next) == Next(clock, old(View(tick)))
      ensures timestamp == stamp(seconds)
      ensures counter > 0 && id == Id(stamp, seconds, counter - 1, suffix)
    {
      next := tick;
      ghost var full := counter > 99_999;
      ghost var other := WaitUntil(clock, tick, seconds);
      if counter > 99_999 {
        while clock(next) == seconds
          invariant tick <= next <= other
          decreases other - next
        {
          next := next + 1;
        }
        next := next + 1;
        counter := 0;
      }
      assert next == if full then other + 1 else tick;
      var now := clock(next);
      next := next + 1;
      if now != seconds {
        seconds := now;
        timestamp := stamp(now);
        if Days(now) != days {
          days := Days(now);
          counter := 0;
        }
      }
      id := timestamp + "_" + Padded(counter) + "_" + suffix;
      counter := counter + 1;
    }
  }
}
