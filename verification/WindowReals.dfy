/**
 * The sliding-window formulas as the code writes them, in exact reals, and their equality with the
 * integer forms of WindowMath (ratelimitrule/slidingwindow.go).
 */
module WindowReals {
  import opened WindowMath

  /** The previous window's count faded out linearly, plus the current count. */
  function WeightedCount(prev: nat, cur: nat, now: nat, size: nat): real
    requires size > 0
  {
    var elapsed := (now % size) as real / size as real;
    prev as real * (1.0 - elapsed) + cur as real
  }

  predicate RealBlocked(max: int, prev: nat, cur: nat, now: nat, size: nat)
    requires size > 0
  {
    WeightedCount(prev, cur, now, size) + 1.0 > max as real
  }

  function TargetFrac(max: int, prev: nat, cur: nat): real
    requires prev > 0
  {
    1.0 - (max - cur - 1) as real / prev as real
  }

  function RealWait(max: int, prev: nat, cur: nat, size: nat, now: nat): int
    requires size > 0
  {
    var curFrac := (now % size) as real / size as real;
    if prev > 0 && cur + 1 <= max && TargetFrac(max, prev, cur) > curFrac && TargetFrac(max, prev, cur) < 1.0 then
      ((TargetFrac(max, prev, cur) - curFrac) * size as real).Floor + 1
    else if cur + 1 <= max then ToBoundary(now, size)
    else if max <= 0 then ToBoundary(now, size)
    else
      var nextFrac := 1.0 - (max - 1) as real / cur as real;
      ToBoundary(now, size) + (nextFrac * size as real).Floor + 1
  }

  function RealAfterAt(max: int, prev: nat, cur: nat, size: nat, now: nat): int
    requires size > 0
  {
    if !RealBlocked(max, prev, cur, now, size) then 0 else RealWait(max, prev, cur, size, now)
  }

  lemma ScaledCount(p: real, c: real, u: real, n: real, d: real)
    requires d == n - u * n
    ensures (p * (1.0 - u) + c) * n == p * d + c * n
  {
  }

  lemma RealOrder(x: real, m: real, n: real)
    requires n > 0.0
    ensures x > m <==> x * n > m * n
  {
    SignOfProduct(n, x - m);
  }

  lemma CompareScaled(w: real, max: int, n: nat, scaled: int)
    requires n > 0 && w * n as real == scaled as real
    ensures w > max as real <==> scaled > max * n
  {
    RealOrder(w, max as real, n as real);
    MulCast(max, n);
  }

  lemma ScaledWeight(prev: nat, cur: nat, now: nat, size: nat)
    requires size > 0
    ensures (WeightedCount(prev, cur, now, size) + 1.0) * size as real
            == (prev * (size - now % size) + (cur + 1) * size) as real
  {
    var left, next, u := size - now % size, cur + 1, (now % size) as real / size as real;
    assert WeightedCount(prev, cur, now, size) + 1.0 == prev as real * (1.0 - u) + next as real;
    assert u * size as real == (now % size) as real;
    ScaledCount(prev as real, next as real, u, size as real, left as real);
    MulCast(prev, left);
    MulCast(next, size);
  }

  /** The admission test of the code is the integer one. */
  lemma BlockedIsExact(max: int, prev: nat, cur: nat, now: nat, size: nat)
    requires size > 0
    ensures RealBlocked(max, prev, cur, now, size) <==> Blocked(max, prev, cur, now, size)
  {
    ScaledWeight(prev, cur, now, size);
    CompareScaled(WeightedCount(prev, cur, now, size) + 1.0, max, size,
                  prev * (size - now % size) + (cur + 1) * size);
  }

  lemma ReliefTimesB(A: real, B: real, E: real, N: real)
    requires B != 0.0 && N != 0.0
    ensures B * ((1.0 - A / B - E / N) * N) == B * (N - E) - A * N
  {
    var u, v := A / B, E / N;
    assert u * B == A && v * N == E;
    calc {
      B * ((1.0 - u - v) * N);
      B * N - (u * B) * N - B * (v * N);
      B * N - A * N - B * E;
    }
  }

  lemma ScaledLow(b: nat, q: int, x: real)
    requires b > 0 && q as real <= x
    ensures (b * q) as real <= b as real * x
  {
    MulCast(b, q);
    ScaleOrder(b as real, q as real, x);
  }

  lemma ScaledHigh(b: nat, q: int, x: real)
    requires b > 0 && x < q as real
    ensures b as real * x < (b * q) as real
  {
    MulCast(b, q);
    ScaleOrder(b as real, x, q as real);
  }

  lemma ScaleOrder(b: real, x: real, y: real)
    requires b > 0.0
    ensures x <= y ==> b * x <= b * y
    ensures x < y ==> b * x < b * y
  {
  }

  lemma CastMiddle(a: int, b: nat, e: nat, n: nat)
    ensures (b * (n - e) - a * n) as real == b as real * (n as real - e as real) - a as real * n as real
  {
    MulCast(b, n - e);
    MulCast(a, n);
  }

  lemma IntsBetween(lo: int, mid: int, hi: int, y: real)
    requires lo as real <= y < hi as real && mid as real == y
    ensures lo <= mid < hi
  {
  }

  /** Floor of (1 - a/b - e/n) * n, located between two integers without division. */
  lemma FloorOfRelief(a: int, b: nat, e: nat, n: nat) returns (q: int)
    requires b > 0 && n > 0
    ensures q == ((1.0 - a as real / b as real - e as real / n as real) * n as real).Floor
    ensures b * q <= b * (n - e) - a * n < b * (q + 1)
  {
    var x := (1.0 - a as real / b as real - e as real / n as real) * n as real;
    q := x.Floor;
    ReliefTimesB(a as real, b as real, e as real, n as real);
    ScaledLow(b, q, x);
    ScaledHigh(b, q + 1, x);
    CastMiddle(a, b, e, n);
    IntsBetween(b * q, b * (n - e) - a * n, b * (q + 1), b as real * x);
  }

  lemma MulCast(a: int, b: int)
    ensures (a * b) as real == a as real * b as real
  {
  }

  lemma FracCompare(a: int, b: nat, e: nat, n: nat)
    requires b > 0 && n > 0
    ensures 1.0 - a as real / b as real > e as real / n as real <==> b * (n - e) > a * n
    ensures 1.0 - a as real / b as real < 1.0 <==> a > 0
  {
    var y := 1.0 - a as real / b as real - e as real / n as real;
    var x, mid := y * n as real, b * (n - e) - a * n;
    assert mid as real == b as real * x by {
      ReliefTimesB(a as real, b as real, e as real, n as real);
      CastMiddle(a, b, e, n);
    }
    assert y > 0.0 <==> mid > 0 by {
      SignOfProduct(n as real, y);
      SignOfProduct(b as real, x);
    }
    QuotientSign(a, b);
  }

  lemma QuotientSign(a: int, b: nat)
    requires b > 0
    ensures a as real / b as real > 0.0 <==> a > 0
  {
    SignOfProduct(b as real, a as real / b as real);
    assert (a as real / b as real) * b as real == a as real;
  }

  lemma SignOfProduct(b: real, x: real)
    requires b > 0.0
    ensures x > 0.0 <==> b * x > 0.0
    ensures x > 0.0 <==> x * b > 0.0
  {
  }

  lemma NoFraction(y: real, n: nat)
    requires n > 0
    ensures y - 0 as real / n as real == y
  {
  }

  lemma FloorOfDecay(a: int, b: nat, n: nat) returns (q: int)
    requires b > 0 && n > 0
    ensures q == ((1.0 - a as real / b as real) * n as real).Floor
    ensures b * q <= b * n - a * n < b * (q + 1)
  {
    q := FloorOfRelief(a, b, 0, n);
    NoFraction(1.0 - a as real / b as real, n);
  }

  lemma FloorIsQuotient(b: nat, q: int, m: int)
    requires b > 0 && b * q <= m < b * (q + 1)
    ensures q == m / b
  {
    var k := m / b;
    assert b * k <= m < b * (k + 1);
    if k < q {
      RightOrder(b, k + 1, q);
    } else if k > q {
      RightOrder(b, q + 1, k);
    }
  }

  lemma InWindowWaitIsExact(max: int, prev: nat, cur: nat, size: nat, now: nat)
    requires size > 0 && prev > 0
    ensures var curFrac := (now % size) as real / size as real;
            ((TargetFrac(max, prev, cur) - curFrac) * size as real).Floor
            == (prev * (size - now % size) - (max - cur - 1) * size) / prev
  {
    var q := FloorOfRelief(max - cur - 1, prev, now % size, size);
    FloorIsQuotient(prev, q, prev * (size - now % size) - (max - cur - 1) * size);
  }

  lemma NextWindowWaitIsExact(max: int, cur: nat, size: nat)
    requires size > 0 && cur > 0
    ensures ((1.0 - (max - 1) as real / cur as real) * size as real).Floor == (cur * size - (max - 1) * size) / cur
  {
    var q := FloorOfDecay(max - 1, cur, size);
    FloorIsQuotient(cur, q, cur * size - (max - 1) * size);
  }

  lemma RealWaitCases(max: int, prev: nat, cur: nat, size: nat, now: nat, above: bool, inWindow: int, nextWindow: int)
    requires size > 0
    requires var curFrac := (now % size) as real / size as real;
             prev > 0 ==>
               && (above <==> TargetFrac(max, prev, cur) > curFrac && TargetFrac(max, prev, cur) < 1.0)
               && inWindow == ((TargetFrac(max, prev, cur) - curFrac) * size as real).Floor
    requires cur > 0 ==> nextWindow == ((1.0 - (max - 1) as real / cur as real) * size as real).Floor
    ensures RealWait(max, prev, cur, size, now)
            == if prev > 0 && cur + 1 <= max && above then inWindow + 1
               else if cur + 1 <= max || max <= 0 then ToBoundary(now, size)
               else ToBoundary(now, size) + nextWindow + 1
  {
  }

  /** The real-valued wait, truncated to whole nanoseconds where the code truncates, is the integer wait. */
  lemma AfterAtIsExact(max: int, prev: nat, cur: nat, size: nat, now: nat)
    requires size > 0
    ensures RealAfterAt(max, prev, cur, size, now) == AfterAt(max, prev, cur, size, now)
  {
    BlockedIsExact(max, prev, cur, now, size);
    var spare, fade := max - cur - 1, prev * (size - now % size);
    var above := fade > spare * size && spare > 0;
    var inWindow := if prev > 0 then (fade - spare * size) / prev else 0;
    var nextWindow := if cur > 0 then (cur * size - (max - 1) * size) / cur else 0;
    if prev > 0 {
      FracCompare(spare, prev, now % size, size);
      InWindowWaitIsExact(max, prev, cur, size, now);
    }
    if cur > 0 {
      NextWindowWaitIsExact(max, cur, size);
    }
    RealWaitCases(max, prev, cur, size, now, above, inWindow, nextWindow);
  }
}
