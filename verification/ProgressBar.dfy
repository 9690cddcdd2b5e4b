/** The two progress bars of the live display. Lengths are computed in 64 bits and split counts
    are 32-bit, so unbounded integers lose nothing. */
module ProgressBar {

  function Max(a: int, b: int): int {
    if a < b then b else a
  }

  function Min(a: int, b: int): int {
    if a < b then a else b
  }

  function CeilDiv(dividend: int, divisor: int): int
    requires divisor > 0 && dividend >= 0
  {
    ((dividend + divisor) - 1) / divisor
  }

  /** The width a share of the total asks for, capped at the bar's width. */
  function Share(width: nat, part: nat, total: nat): int
    requires total > 0
  {
    Min(width, CeilDiv(part * width, total))
  }

  // ----- Rounding up.

  /** CeilDiv is the least quotient that covers the dividend. */
  lemma {:induction false} CeilBounds(dividend: nat, divisor: nat)
    requires divisor > 0
    ensures var q := CeilDiv(dividend, divisor);
            q >= 0 && q * divisor - divisor < dividend <= q * divisor
  {
    var a, q := dividend + divisor - 1, CeilDiv(dividend, divisor);
    assert a == q * divisor + a % divisor;
  }

  lemma {:induction false} MulCancel(x: int, y: int, t: int)
    requires t > 0 && x * t < y * t
    ensures x < y
  {
    if x >= y { MulMonotone(y, x, t); }
  }

  lemma {:induction false} MulMonotone(x: int, y: int, t: int)
    requires x <= y && t >= 0
    ensures x * t <= y * t
  {
  }

  lemma {:induction false} Distribute(x: int, y: int, t: int)
    ensures (x + y) * t == x * t + y * t
  {
  }

  lemma {:induction false} ShareBounds(width: nat, part: nat, total: nat)
    requires total > 0 && width > 0
    ensures var s := CeilDiv(part * width, total);
            && (part > 0 <==> s >= 1) && s >= 0
            && (part <= total ==> s <= width) && (part >= total ==> s >= width)
  {
    var s, product := CeilDiv(part * width, total), part * width;
    CeilBounds(product, total);
    if part > 0 {
      assert product >= width by { MulMonotone(1, part, width); }
      MulCancel(0, s, total);
    } else {
      MulCancel(s, 1, total);
    }
    if part <= total {
      assert product <= total * width by { MulMonotone(part, total, width); }
      AtMost(s, width, product, total);
    }
    if part >= total {
      assert product >= total * width by { MulMonotone(total, part, width); }
      AtLeast(s, width, product, total);
    }
  }

  lemma {:induction false} AtMost(s: int, width: nat, product: int, total: nat)
    requires total > 0 && s * total - total < product <= total * width
    ensures s <= width
  {
    Distribute(s - 1, 1, total);
    MulCancel(s - 1, width, total);
  }

  lemma {:induction false} AtLeast(s: int, width: nat, product: int, total: nat)
    requires total > 0 && total * width <= product <= s * total
    ensures s >= width
  {
    Distribute(width - 1, 1, total);
    MulCancel(width - 1, s, total);
  }

  /** Shares of a total, each rounded up, cover the bar. */
  lemma {:induction false} SharesCover(width: nat, complete: nat, running: nat, pending: nat, total: nat)
    requires total > 0 && width > 0 && complete + running + pending >= total
    ensures CeilDiv(complete * width, total) + CeilDiv(running * width, total) + CeilDiv(pending * width, total) >= width
  {
    var c, r, p := CeilDiv(complete * width, total), CeilDiv(running * width, total), CeilDiv(pending * width, total);
    CeilBounds(complete * width, total);
    CeilBounds(running * width, total);
    CeilBounds(pending * width, total);
    var sum, splits := c + r + p, complete + running + pending;
    assert sum * total == c * total + r * total + p * total by {
      Distribute(c, r, total);
      Distribute(c + r, p, total);
    }
    assert splits * width == complete * width + running * width + pending * width by {
      Distribute(complete, running, width);
      Distribute(complete + running, pending, width);
    }
    CoversWidth(width, sum, splits, total);
  }

  lemma {:induction false} CoversWidth(width: nat, sum: nat, splits: nat, total: nat)
    requires total > 0 && width > 0 && splits >= total && sum * total >= splits * width
    ensures sum >= width
  {
    MulMonotone(total, splits, width);
    Distribute(width - 1, 1, total);
    MulCancel(width - 1, sum, total);
  }

  /** Two shares within the total miss the bar by at most one column. */
  lemma {:induction false} TwoSharesFit(width: nat, complete: nat, running: nat, total: nat)
    requires total > 0 && width > 0 && complete + running <= total
    ensures CeilDiv(complete * width, total) + CeilDiv(running * width, total) <= width + 1
  {
    var c, r := CeilDiv(complete * width, total), CeilDiv(running * width, total);
    CeilBounds(complete * width, total);
    CeilBounds(running * width, total);
    Distribute(c, r, total);
    Distribute(complete, running, width);
    MulMonotone(complete + running, total, width);
    Distribute(width, 2, total);
    MulCancel(c + r, width + 2, total);
  }

  // ----- The determinate bar.

  /** How many '=' are shown: the capped share of the completed splits, less one when that leaves
      no column for running ones. */
  function CompleteShown(width: nat, complete: nat, running: nat, total: nat): int
    requires total > 0
  {
    var share := Share(width, complete, total);
    if share == width && running > 0 then width - 1 else share
  }

  /** How many '>' are shown: all columns left if no split is pending, else the share of the running
      ones as far as it fits. */
  function RunningShown(width: nat, complete: nat, running: nat, total: nat): int
    requires total > 0
  {
    var left := width - CompleteShown(width, complete, running, total);
    if complete + running < total then Min(Share(width, running, total), left) else left
  }

  /** The three adjustments of the source, in its order. */
  method Segments(width: nat, complete: nat, running: nat, total: nat)
    returns (completeLength: int, runningLength: int, pendingLength: int)
    requires width >= 1 && total > 0
    ensures completeLength >= 0 && runningLength >= 0 && pendingLength >= 0
    ensures completeLength + runningLength + pendingLength == width
    ensures completeLength == CompleteShown(width, complete, running, total)
    ensures runningLength == RunningShown(width, complete, running, total)
    ensures runningLength > 0 <==> running > 0
    ensures pendingLength > 0 ==> complete + running < total
  {
    var pending := Max(0, total - complete - running);
    SharesCover(width, complete, running, pending, total);
    if complete + running <= total { TwoSharesFit(width, complete, running, total); }
    ShareBounds(width, complete, total);
    ShareBounds(width, running, total);
    ShareBounds(width, pending, total);

    completeLength := Min(width, CeilDiv(complete * width, total));
    pendingLength := Min(width, CeilDiv(pending * width, total));
    var minRunningLength := if running > 0 then 1 else 0;
    runningLength := Max(Min(width, CeilDiv(running * width, total)), minRunningLength);

    if completeLength + runningLength + pendingLength != width && pending > 0 {
      pendingLength := Max(0, width - completeLength - runningLength);
    }
    if completeLength + runningLength + pendingLength != width {
      runningLength := Max(minRunningLength, width - completeLength - pendingLength);
    }
    if completeLength + runningLength + pendingLength > width && complete > 0 {
      completeLength := Max(0, width - runningLength - pendingLength);
    }
  }

  function Repeat(c: char, n: nat): (s: string)
    ensures |s| == n && forall k :: 0 <= k < n ==> s[k] == c
  {
    seq(n, _ => c)
  }

  /** The bar always fills its width: '=' then '>' then blanks. A bar over no splits is blank. */
  method FormatProgressBar(width: nat, complete: nat, running: nat, total: nat) returns (bar: string)
    requires width >= 1
    ensures |bar| == width
    ensures total == 0 ==> bar == Repeat(' ', width)
    ensures total > 0 ==> 0 <= CompleteShown(width, complete, running, total) <= width
    ensures total > 0 ==> forall k :: 0 <= k < width ==>
              (bar[k] == '=' <==> k < CompleteShown(width, complete, running, total))
    ensures total > 0 ==> forall j, k :: CompleteShown(width, complete, running, total) <= j < k < width ==>
              (bar[k] == '>' ==> bar[j] == '>')
    ensures total > 0 ==> ((exists k :: 0 <= k < width && bar[k] == '>') <==> running > 0)
    ensures total > 0 && (exists k :: 0 <= k < width && bar[k] == ' ') ==> complete + running < total
  {
    if total == 0 { return Repeat(' ', width); }
    var c, r, p := Segments(width, complete, running, total);
    bar := Repeat('=', c) + Repeat('>', r) + Repeat(' ', p);
    if running > 0 { assert bar[c] == '>'; }
  }

  // ----- The bouncing bar.

  const MARKER := "<=>"

  /** The column of the marker: up the range and back. */
  function Column(span: nat, tick: nat): int
    requires span > 0
  {
    if tick / span % 2 != 0 then span - tick % span else tick % span
  }

  method FormatBouncingBar(width: int, tick: nat) returns (bar: string)
    ensures |bar| == Max(0, width)
    ensures width <= 3 ==> bar == Repeat(' ', Max(0, width))
    ensures width > 3 ==> 0 <= Column(width - 3, tick) <= width - 3
    ensures width > 3 ==> forall k :: 0 <= k < width ==>
              bar[k] == if Column(width - 3, tick) <= k < Column(width - 3, tick) + 3
                        then MARKER[k - Column(width - 3, tick)] else ' '
  {
    var span := width - |MARKER|;
    if span <= 0 { return Repeat(' ', Max(0, width)); }
    var lower := tick % span;
    if tick / span % 2 != 0 { lower := span - lower; }
    bar := Repeat(' ', lower) + MARKER + Repeat(' ', width - (lower + |MARKER|));
  }

  lemma {:induction false} Divide(a: nat, d: nat, q: nat, r: nat)
    requires d > 0 && r < d && a == q * d + r
    ensures a / d == q && a % d == r
  {
    var q', r' := a / d, a % d;
    assert a == q' * d + r';
    Distribute(q', 1, d);
    Distribute(q, 1, d);
    if q' < q { MulMonotone(q' + 1, q, d); }
    if q < q' { MulMonotone(q + 1, q', d); }
  }

  /** The marker moves by exactly one column a tick, also where it turns. */
  lemma {:induction false} MovesOneColumn(span: nat, tick: nat)
    requires span > 0
    ensures Column(span, tick + 1) == Column(span, tick) + 1 || Column(span, tick + 1) == Column(span, tick) - 1
  {
    var q, r := tick / span, tick % span;
    assert tick == q * span + r;
    if r + 1 < span {
      Divide(tick + 1, span, q, r + 1);
    } else {
      assert tick + 1 == (q + 1) * span + 0;
      Divide(tick + 1, span, q + 1, 0);
    }
  }

  /** It is back after 2 * span ticks, having reached both ends. */
  lemma {:induction false} Bounces(span: nat, tick: nat)
    requires span > 0
    ensures Column(span, tick + 2 * span) == Column(span, tick)
    ensures Column(span, 0) == 0 && Column(span, span) == span
  {
    var q, r := tick / span, tick % span;
    assert tick == q * span + r;
    assert tick + 2 * span == (q + 2) * span + r;
    Divide(tick + 2 * span, span, q + 2, r);
    Divide(0, span, 0, 0);
    Divide(span, span, 1, 0);
  }
}
