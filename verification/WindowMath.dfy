/**
 * The sliding-window arithmetic (ratelimitrule/slidingwindow.go) in integers, the fractions of the code
 * multiplied out; WindowReals shows these are the code's formulas. Times are nanoseconds.
 */
module WindowMath {

  /** The weighted trailing count plus one exceeds the limit. */
  predicate Blocked(max: int, prev: nat, cur: nat, now: nat, size: nat)
    requires size > 0
  {
    prev * (size - now % size) + (cur + 1) * size > max * size
  }

  function ToBoundary(now: nat, size: nat): int
    requires size > 0
  {
    (now / size + 1) * size - now
  }

  /** How long until the next admission of a key whose counts are (prev, cur) in the window of `now`. */
  function AfterAt(max: int, prev: nat, cur: nat, size: nat, now: nat): int
    requires size > 0
  {
    if !Blocked(max, prev, cur, now, size) then 0
    else
      var spare, fade := max - cur - 1, prev * (size - now % size);
      if prev > 0 && spare >= 0 && fade > spare * size && spare > 0 then (fade - spare * size) / prev + 1
      else if spare >= 0 then ToBoundary(now, size)
      else if max <= 0 then ToBoundary(now, size)
      else ToBoundary(now, size) + (cur * size - (max - 1) * size) / cur + 1
  }

  /** The counts a key has at `t` if nothing is admitted for it after `now`. */
  function Aged(prev: nat, cur: nat, size: nat, now: nat, t: nat): (nat, nat)
    requires size > 0
  {
    var d := t / size - now / size;
    if d <= 0 then (prev, cur) else if d == 1 then (cur, 0) else (0, 0)
  }

  predicate BlockedLater(max: int, prev: nat, cur: nat, size: nat, now: nat, t: nat)
    requires size > 0
  {
    var (p, c) := Aged(prev, cur, size, now, t);
    Blocked(max, p, c, t, size)
  }

  lemma MulOrder(a: int, b: int, n: nat)
    ensures a <= b ==> a * n <= b * n
  {
  }

  lemma RightOrder(n: nat, a: int, b: int)
    requires a <= b
    ensures n * a <= n * b
  {
  }

  lemma PositiveFactor(a: nat, b: int)
    requires a * b > 0
    ensures b > 0
  {
  }

  /** The admission threshold around the instant q at which the previous window has faded enough. */
  lemma InWindowArith(max: int, prev: nat, cur: nat, size: nat, e: nat, q: int, f: nat)
    requires prev > 0 && cur + 1 < max && size > 0
    requires prev * q <= prev * (size - e) - (max - cur - 1) * size < prev * (q + 1)
    ensures f >= e + q + 1 ==> prev * (size - f) + (cur + 1) * size <= max * size
    ensures f < e + q ==> prev * (size - f) + (cur + 1) * size > max * size
    ensures q < size - e
  {
    var x, y := max - cur - 1, cur + 1;
    assert x * size + y * size == max * size by { assert (x + y) * size == x * size + y * size; }
    MulOrder(1, x, size);
    if q >= size - e {
      RightOrder(prev, size - e, q);
    }
    if f >= e + q + 1 {
      RightOrder(prev, size - f, size - e - (q + 1));
      assert prev * (size - e - (q + 1)) == prev * (size - e) - prev * (q + 1);
    } else if f < e + q {
      RightOrder(prev, size - e - q + 1, size - f);
      assert prev * (size - e - q + 1) == prev * (size - e) - prev * q + prev;
    }
  }

  /** The same threshold when the current count itself has to fade in the next window. */
  lemma NextWindowArith(max: int, cur: nat, size: nat, q: int, f: nat)
    requires cur >= max >= 1 && size > 0
    requires cur * q <= cur * size - (max - 1) * size < cur * (q + 1)
    ensures f >= q + 1 ==> cur * (size - f) + size <= max * size
    ensures f < q ==> cur * (size - f) + size > max * size
    ensures 0 <= q <= size && (cur + 1) * size > max * size >= size
  {
    assert (max - 1) * size + size == max * size;
    MulOrder(0, max - 1, size);
    MulOrder(max - 1, cur, size);
    assert (cur + 1) * size == cur * size + size;
    MulOrder(max, cur, size);
    PositiveFactor(cur, q + 1);
    if q > size {
      RightOrder(cur, size + 1, q);
    }
    if f >= q + 1 {
      RightOrder(cur, size - f, size - (q + 1));
      assert cur * (size - (q + 1)) == cur * size - cur * (q + 1);
    } else if f < q {
      RightOrder(cur, size - q + 1, size - f);
      assert cur * (size - q + 1) == cur * size - cur * q + cur;
    }
  }

  lemma DivUnique(x: nat, n: nat, k: int, r: int)
    requires n > 0 && x == k * n + r && 0 <= r < n
    ensures x / n == k && x % n == r
  {
    var k' := x / n;
    if k' < k {
      MulOrder(k' + 1, k, n);
    } else if k < k' {
      MulOrder(k + 1, k', n);
    }
  }

  /** Where `t >= now` falls relative to the window of `now`. */
  lemma WindowOf(size: nat, now: nat, t: nat)
    requires size > 0 && t >= now
    ensures var d, b := t / size - now / size, now + ToBoundary(now, size);
            && d >= 0
            && (d == 0 <==> t < b) && (d == 0 ==> t % size == now % size + (t - now))
            && (d == 1 <==> b <= t < b + size) && (d == 1 ==> t % size == t - b)
            && ToBoundary(now, size) == size - now % size > 0
  {
    var i, b := now / size, now + ToBoundary(now, size);
    assert b == i * size + size;
    if t < b {
      DivUnique(t, size, i, t - i * size);
    } else if t < b + size {
      DivUnique(t, size, i + 1, t - b);
    } else {
      MulOrder(t / size + 1, i + 2, size);
      assert (t / size + 1) * size == (t / size) * size + size;
      assert (i + 2) * size == b + size;
    }
  }

  /** Why a blocked key with a free slot is relieved, or not, inside its window. */
  lemma ReliefArith(max: int, prev: nat, cur: nat, size: nat, now: nat)
    requires size > 0 && Blocked(max, prev, cur, now, size) && cur + 1 <= max
    ensures prev > 0 && prev * (size - now % size) > (max - cur - 1) * size
  {
    var x, y, left := max - cur - 1, cur + 1, size - now % size;
    assert x * size + y * size == max * size by { assert (x + y) * size == x * size + y * size; }
    MulOrder(0, x, size);
    PositiveFactor(left, prev);
  }

  lemma QuotientBounds(m: int, b: nat)
    requires b > 0
    ensures b * (m / b) <= m < b * (m / b + 1)
  {
  }

  lemma FreeInLaterWindows(max: int, prev: nat, cur: nat, size: nat, now: nat, t: nat)
    requires size > 0 && cur + 1 <= max && t / size > now / size
    ensures !BlockedLater(max, prev, cur, size, now, t)
  {
    var (p, c) := Aged(prev, cur, size, now, t);
    assert p <= cur && c == 0;
    MulOrder(p + 1, max, size);
    assert p * size + size == (p + 1) * size;
    RightOrder(p, size - t % size, size);
  }

  lemma SoundWhenFree(max: int, prev: nat, cur: nat, size: nat, now: nat, t: nat)
    requires size > 0 && t >= now && !Blocked(max, prev, cur, now, size)
    ensures !BlockedLater(max, prev, cur, size, now, t)
  {
    WindowOf(size, now, t);
    RightOrder(prev, 0, size - now % size);
    MulOrder(max + 1, cur + 1, size);
    assert (max + 1) * size == max * size + size;
    if t / size > now / size {
      FreeInLaterWindows(max, prev, cur, size, now, t);
    } else {
      RightOrder(prev, size - t % size, size - now % size);
    }
  }

  /** Blocked with a free slot: the previous window fades within this one, or the next window begins. */
  lemma SoundWithSlot(max: int, prev: nat, cur: nat, size: nat, now: nat, t: nat)
    requires size > 0 && Blocked(max, prev, cur, now, size) && cur + 1 <= max
    requires t >= now && t >= now + AfterAt(max, prev, cur, size, now)
    ensures AfterAt(max, prev, cur, size, now) >= 0
    ensures !BlockedLater(max, prev, cur, size, now, t)
  {
    WindowOf(size, now, now);
    ReliefArith(max, prev, cur, size, now);
    var m := prev * (size - now % size) - (max - cur - 1) * size;
    QuotientBounds(m, prev);
    WindowOf(size, now, t);
    if t / size > now / size {
      FreeInLaterWindows(max, prev, cur, size, now, t);
    } else {
      InWindowArith(max, prev, cur, size, now % size, m / prev, t % size);
    }
  }

  /** Blocked with the window full: it has to fade in the next one. */
  lemma SoundWhenFull(max: int, prev: nat, cur: nat, size: nat, now: nat, t: nat)
    requires size > 0 && cur >= max >= 1
    requires t >= now + AfterAt(max, prev, cur, size, now)
    ensures AfterAt(max, prev, cur, size, now) >= 0
    ensures !BlockedLater(max, prev, cur, size, now, t)
  {
    FullIsBlocked(max, prev, cur, now, size);
    WindowOf(size, now, now);
    var m := cur * size - (max - 1) * size;
    QuotientBounds(m, cur);
    NextWindowArith(max, cur, size, m / cur, 0);
    WindowOf(size, now, t);
    NextWindowArith(max, cur, size, m / cur, t % size);
  }

  lemma FullIsBlocked(max: int, prev: nat, cur: nat, t: nat, size: nat)
    requires size > 0 && cur >= max
    ensures Blocked(max, prev, cur, t, size)
  {
    MulOrder(max + 1, cur + 1, size);
    assert (max + 1) * size == max * size + size;
    RightOrder(prev, 0, size - t % size);
  }

  lemma AfterIsNatural(max: int, prev: nat, cur: nat, size: nat, now: nat)
    requires size > 0 && max >= 1
    ensures AfterAt(max, prev, cur, size, now) >= 0
  {
    WindowOf(size, now, now);
    if Blocked(max, prev, cur, now, size) {
      if cur + 1 <= max {
        ReliefArith(max, prev, cur, size, now);
        QuotientBounds(prev * (size - now % size) - (max - cur - 1) * size, prev);
      } else {
        var m := cur * size - (max - 1) * size;
        QuotientBounds(m, cur);
        NextWindowArith(max, cur, size, m / cur, 0);
      }
    }
  }

  /**
   * A key that is admitted nothing more after `now` is admissible at every instant from now + After on,
   * so also after the wait is rounded up.
   */
  lemma AfterIsSound(max: int, prev: nat, cur: nat, size: nat, now: nat, t: nat)
    requires size > 0 && max >= 1 && t >= now + AfterAt(max, prev, cur, size, now)
    ensures AfterAt(max, prev, cur, size, now) >= 0
    ensures !BlockedLater(max, prev, cur, size, now, t)
  {
    AfterIsNatural(max, prev, cur, size, now);
    if !Blocked(max, prev, cur, now, size) {
      SoundWhenFree(max, prev, cur, size, now, t);
    } else if cur + 1 <= max {
      SoundWithSlot(max, prev, cur, size, now, t);
    } else {
      SoundWhenFull(max, prev, cur, size, now, t);
    }
  }

  /** The wait is tight to a nanosecond, and a positive wait is only ever reported to a blocked key. */
  lemma AfterIsTight(max: int, prev: nat, cur: nat, size: nat, now: nat, t: nat)
    requires size > 0 && max >= 1 && now <= t
    ensures var after := AfterAt(max, prev, cur, size, now);
            t < now + after - 1 || (t == now && after > 0) ==> BlockedLater(max, prev, cur, size, now, t)
  {
    WindowOf(size, now, t);
    if t == now || t >= now + AfterAt(max, prev, cur, size, now) - 1 {
    } else if cur + 1 < max {
      ReliefArith(max, prev, cur, size, now);
      var m := prev * (size - now % size) - (max - cur - 1) * size;
      QuotientBounds(m, prev);
      InWindowArith(max, prev, cur, size, now % size, m / prev, t % size);
    } else if cur + 1 == max {
      ReliefArith(max, prev, cur, size, now);
      RightOrder(prev, 1, size - t % size);
    } else {
      var m := cur * size - (max - 1) * size;
      QuotientBounds(m, cur);
      NextWindowArith(max, cur, size, m / cur, t % size);
      RightOrder(prev, 0, size - t % size);
    }
  }

  /** The wait is 0 exactly when the key is admissible at that instant, whatever the limit. */
  lemma AfterIsZero(max: int, prev: nat, cur: nat, size: nat, now: nat)
    requires size > 0
    ensures AfterAt(max, prev, cur, size, now) == 0 <==> !Blocked(max, prev, cur, now, size)
  {
    WindowOf(size, now, now);
    if Blocked(max, prev, cur, now, size) {
      if cur + 1 <= max {
        ReliefArith(max, prev, cur, size, now);
        QuotientBounds(prev * (size - now % size) - (max - cur - 1) * size, prev);
      } else if max >= 1 {
        var m := cur * size - (max - 1) * size;
        QuotientBounds(m, cur);
        NextWindowArith(max, cur, size, m / cur, 0);
      }
    }
  }

  const SECOND: nat := 1_000_000_000

  /** Retry-After in whole seconds, rounded up. */
  function RetryAfterSeconds(after: nat): nat {
    (after + SECOND - 1) / SECOND
  }

  /** A client that honours Retry-After is admitted, and no shorter whole number of seconds covers the wait. */
  lemma RetryAfterIsHonoured(max: int, prev: nat, cur: nat, size: nat, now: nat)
    requires size > 0 && max >= 1 && AfterAt(max, prev, cur, size, now) > 0
    ensures var secs := RetryAfterSeconds(AfterAt(max, prev, cur, size, now));
            && secs >= 1
            && (secs - 1) * SECOND < AfterAt(max, prev, cur, size, now)
            && !BlockedLater(max, prev, cur, size, now, now + secs * SECOND)
  {
    var after := AfterAt(max, prev, cur, size, now);
    var secs := RetryAfterSeconds(after);
    assert after <= secs * SECOND < after + SECOND;
    AfterIsSound(max, prev, cur, size, now, now + secs * SECOND);
  }
}
