/** The two-generation sliding-window limiter against a full admission log (ratelimitrule/slidingwindow.go). */
module SlidingWindow {
  import opened WindowMath

  datatype State = State(window: nat, cur: map<string, nat>, prev: map<string, nat>)

  const START := State(0, map[], map[])

  function Get(m: map<string, nat>, key: string): nat {
    if key in m then m[key] else 0
  }

  /** Advances the generations; the same window or a backward clock changes nothing. */
  function Roll(s: State, window: nat): State {
    if window <= s.window then s
    else if window == s.window + 1 then State(window, map[], s.cur)
    else State(window, map[], map[])
  }

  function Take(s: State, max: int, size: nat, key: string, now: nat): (State, bool)
    requires size > 0
  {
    var r := Roll(s, now / size);
    if Blocked(max, Get(r.prev, key), Get(r.cur, key), now, size) then (r, false)
    else (r.(cur := r.cur[key := Get(r.cur, key) + 1]), true)
  }

  /** The counts After reads: the roll is done on locals. */
  function Peek(s: State, key: string, window: nat): (nat, nat) {
    if window <= s.window then (Get(s.prev, key), Get(s.cur, key))
    else if window == s.window + 1 then (Get(s.cur, key), 0)
    else (0, 0)
  }

  function After(s: State, max: int, size: nat, key: string, now: nat): int
    requires size > 0
  {
    var (prev, cur) := Peek(s, key, now / size);
    AfterAt(max, prev, cur, size, now)
  }

  /** One admitted request: the generation it was counted in, its instant, its key. */
  datatype Admission = Admission(gen: nat, at: nat, key: string)

  function InGen(log: seq<Admission>, gen: int, key: string): nat {
    if log == [] then 0
    else
      var last := log[|log| - 1];
      InGen(log[..|log| - 1], gen, key) + (if last.gen == gen && last.key == key then 1 else 0)
  }

  /** Admissions of a key at instants in [lo, hi), read off the log alone. */
  function Between(log: seq<Admission>, lo: int, hi: int, key: string): nat {
    if log == [] then 0
    else
      var last := log[|log| - 1];
      Between(log[..|log| - 1], lo, hi, key) + (if lo <= last.at < hi && last.key == key then 1 else 0)
  }

  /** The stored counts are exact, older generations are bounded, and no generation is ahead of the state. */
  ghost predicate LogInv(s: State, log: seq<Admission>, max: int) {
    && (forall key :: Get(s.cur, key) == InGen(log, s.window, key))
    && (forall key :: Get(s.prev, key) == InGen(log, s.window - 1, key))
    && (forall gen, key | gen > s.window :: InGen(log, gen, key) == 0)
    && (forall gen, key :: InGen(log, gen, key) <= Cap(max))
    && (forall gen, key :: InGen(log, gen, key) + InGen(log, gen + 1, key) <= PairCap(max))
  }

  function Cap(max: int): nat {
    if max < 0 then 0 else max
  }

  function PairCap(max: int): nat {
    if max < 1 then 0 else 2 * max - 1
  }

  lemma {:induction false} NothingBelowZero(log: seq<Admission>, gen: int, key: string)
    requires gen < 0
    ensures InGen(log, gen, key) == 0
  {
    if log != [] {
      NothingBelowZero(log[..|log| - 1], gen, key);
    }
  }

  lemma RollKeepsLogInv(s: State, log: seq<Admission>, max: int, window: nat)
    requires LogInv(s, log, max)
    ensures LogInv(Roll(s, window), log, max)
  {
  }

  /** An admission leaves the key at most at the limit, and below it if the previous window has any of it. */
  lemma AdmittedWithinLimit(max: int, prev: nat, cur: nat, now: nat, size: nat)
    requires size > 0 && !Blocked(max, prev, cur, now, size)
    ensures cur + 1 <= max && (prev > 0 ==> cur + 1 < max)
  {
    RightOrder(prev, if prev > 0 then 1 else 0, size - now % size);
    MulOrder(max + 1, cur + 1, size);
    assert (max + 1) * size == max * size + size;
    if cur + 1 == max {
      assert prev * (size - now % size) <= 0;
    }
  }

  lemma InGenAppend(log: seq<Admission>, a: Admission, gen: int, key: string)
    ensures InGen(log + [a], gen, key) == InGen(log, gen, key) + (if a.gen == gen && a.key == key then 1 else 0)
  {
    assert (log + [a])[..|log|] == log;
  }

  lemma AdmitKeepsLogInv(r: State, log: seq<Admission>, max: int, size: nat, key: string, now: nat)
    requires size > 0 && LogInv(r, log, max)
    requires !Blocked(max, Get(r.prev, key), Get(r.cur, key), now, size)
    ensures LogInv(r.(cur := r.cur[key := Get(r.cur, key) + 1]), log + [Admission(r.window, now, key)], max)
  {
    var log' := log + [Admission(r.window, now, key)];
    AdmittedWithinLimit(max, Get(r.prev, key), Get(r.cur, key), now, size);
    forall gen, k
      ensures InGen(log', gen, k) == InGen(log, gen, k) + (if gen == r.window && k == key then 1 else 0)
    {
      InGenAppend(log, Admission(r.window, now, key), gen, k);
    }
    forall gen, k ensures InGen(log', gen, k) + InGen(log', gen + 1, k) <= PairCap(max) {
      assert InGen(log, gen, k) + InGen(log, gen + 1, k) <= PairCap(max);
      if k == key && gen + 1 == r.window {
        assert InGen(log, gen, key) == Get(r.prev, key) && InGen(log, gen, key) <= Cap(max);
      } else if k == key && gen == r.window {
        assert InGen(log, gen + 1, key) == 0;
      }
    }
  }

  lemma TakeKeepsLogInv(s: State, log: seq<Admission>, max: int, size: nat, key: string, now: nat)
    requires size > 0 && LogInv(s, log, max)
    ensures var (s', ok) := Take(s, max, size, key, now);
            LogInv(s', if ok then log + [Admission(s'.window, now, key)] else log, max)
  {
    RollKeepsLogInv(s, log, max, now / size);
    if Take(s, max, size, key, now).1 {
      AdmitKeepsLogInv(Roll(s, now / size), log, max, size, key, now);
    }
  }

  datatype Request = Request(key: string, now: nat)

  /** A run of Takes from a fresh limiter, with the log of what it admitted. */
  function Play(max: int, size: nat, requests: seq<Request>): (State, seq<Admission>)
    requires size > 0
  {
    if requests == [] then (START, [])
    else
      var last := requests[|requests| - 1];
      var (s, log) := Play(max, size, requests[..|requests| - 1]);
      var (s', ok) := Take(s, max, size, last.key, last.now);
      (s', if ok then log + [Admission(s'.window, last.now, last.key)] else log)
  }

  lemma {:induction false} PlayInv(max: int, size: nat, requests: seq<Request>)
    requires size > 0
    ensures var (s, log) := Play(max, size, requests); LogInv(s, log, max)
  {
    if requests != [] {
      var rest, last := requests[..|requests| - 1], requests[|requests| - 1];
      PlayInv(max, size, rest);
      var (s, log) := Play(max, size, rest);
      TakeKeepsLogInv(s, log, max, size, last.key, last.now);
    }
  }

  /**
   * For any clock, backward steps included: the stored counts are those of the log, each generation admits
   * at most max per key, and two adjacent generations together at most 2 * max - 1.
   */
  lemma GenerationsAreBounded(max: int, size: nat, requests: seq<Request>, gen: int, key: string)
    requires size > 0 && max >= 1
    ensures var (s, log) := Play(max, size, requests);
            && Get(s.cur, key) == InGen(log, s.window, key)
            && Get(s.prev, key) == InGen(log, s.window - 1, key)
            && InGen(log, gen, key) <= max
            && InGen(log, gen, key) + InGen(log, gen + 1, key) <= 2 * max - 1
  {
    PlayInv(max, size, requests);
  }

  ghost predicate Nondecreasing(requests: seq<Request>) {
    forall i, k | 0 <= i < k < |requests| :: requests[i].now <= requests[k].now
  }

  /** With a nondecreasing clock a generation is the aligned window of its admissions. */
  lemma {:induction false} GenerationsAreAligned(max: int, size: nat, requests: seq<Request>)
    requires size > 0 && Nondecreasing(requests)
    ensures var (s, log) := Play(max, size, requests);
            && s.window == (if requests == [] then 0 else requests[|requests| - 1].now / size)
            && forall a | a in log :: a.gen == a.at / size
  {
    if requests != [] {
      var rest, last := requests[..|requests| - 1], requests[|requests| - 1];
      GenerationsAreAligned(max, size, rest);
      if rest != [] {
        DivMonotone(rest[|rest| - 1].now, last.now, size);
      }
    }
  }

  lemma DivMonotone(a: nat, b: nat, n: nat)
    requires n > 0 && a <= b
    ensures a / n <= b / n
  {
    WindowOf(n, a, b);
  }

  lemma {:induction false} AlignedWindowIsGeneration(log: seq<Admission>, size: nat, w: nat, key: string)
    requires size > 0 && forall a | a in log :: a.gen == a.at / size
    ensures Between(log, w * size, (w + 1) * size, key) == InGen(log, w, key)
  {
    if log != [] {
      var rest, last := log[..|log| - 1], log[|log| - 1];
      forall a | a in rest ensures a in log {}
      AlignedWindowIsGeneration(rest, size, w, key);
      InWindow(last.at, size, w);
    }
  }

  lemma InWindow(at: nat, size: nat, w: nat)
    requires size > 0
    ensures w * size <= at < (w + 1) * size <==> at / size == w
  {
    var q := at / size;
    assert q * size <= at < q * size + size;
    assert (w + 1) * size == w * size + size;
    MulOrder(q + 1, w, size);
    MulOrder(w + 1, q, size);
    assert (q + 1) * size == q * size + size;
  }

  /** A span of one window length touches two adjacent aligned windows at most. */
  lemma {:induction false} SpanInTwoWindows(log: seq<Admission>, size: nat, lo: nat, key: string)
    requires size > 0 && forall a | a in log :: a.gen == a.at / size
    ensures Between(log, lo, lo + size, key) <= InGen(log, lo / size, key) + InGen(log, lo / size + 1, key)
  {
    if log != [] {
      var rest, last := log[..|log| - 1], log[|log| - 1];
      forall a | a in rest ensures a in log {}
      SpanInTwoWindows(rest, size, lo, key);
      if lo <= last.at < lo + size {
        WindowOf(size, lo, last.at);
      }
    }
  }

  /**
   * With a nondecreasing clock, over every run: the two maps are the exact counts of the current and
   * previous aligned window, an aligned window admits at most max per key, and any span of one window
   * length, aligned or not, at most 2 * max - 1.
   */
  lemma AdmissionsAreBounded(max: int, size: nat, requests: seq<Request>, w: nat, lo: nat, key: string)
    requires size > 0 && max >= 1 && Nondecreasing(requests)
    ensures var (s, log) := Play(max, size, requests);
            && Get(s.cur, key) == Between(log, s.window * size, (s.window + 1) * size, key)
            && (s.window > 0 ==> Get(s.prev, key) == Between(log, (s.window - 1) * size, s.window * size, key))
            && Between(log, w * size, (w + 1) * size, key) <= max
            && Between(log, lo, lo + size, key) <= 2 * max - 1
  {
    var (s, log) := Play(max, size, requests);
    PlayInv(max, size, requests);
    GenerationsAreAligned(max, size, requests);
    AlignedWindowIsGeneration(log, size, s.window, key);
    if s.window > 0 {
      AlignedWindowIsGeneration(log, size, s.window - 1, key);
    }
    AlignedWindowIsGeneration(log, size, w, key);
    SpanInTwoWindows(log, size, lo, key);
  }

  function Burst(key: string, at: nat, n: nat): seq<Request> {
    seq(n, _ => Request(key, at))
  }

  lemma FewerAreFreer(max: int, prev: nat, fewer: nat, cur: nat, now: nat, size: nat)
    requires size > 0 && fewer <= cur && !Blocked(max, prev, cur, now, size)
    ensures !Blocked(max, prev, fewer, now, size)
  {
    MulOrder(fewer + 1, cur + 1, size);
  }

  /** What a Take that is admitted does to the counts of its key. */
  lemma TakeCounts(s: State, max: int, size: nat, key: string, at: nat)
    requires size > 0
    requires !Blocked(max, Get(Roll(s, at / size).prev, key), Get(Roll(s, at / size).cur, key), at, size)
    ensures var r, (s', ok) := Roll(s, at / size), Take(s, max, size, key, at);
            && ok && s'.window == r.window && Roll(s', at / size) == s'
            && Get(s'.prev, key) == Get(r.prev, key) && Get(s'.cur, key) == Get(r.cur, key) + 1
  {
  }

  function Next(max: int, size: nat, p: (State, seq<Admission>), key: string, at: nat): (State, seq<Admission>)
    requires size > 0
  {
    var (s, ok) := Take(p.0, max, size, key, at);
    (s, if ok then p.1 + [Admission(s.window, at, key)] else p.1)
  }

  lemma PlayOneMore(max: int, size: nat, before: seq<Request>, key: string, at: nat)
    requires size > 0
    ensures Play(max, size, before + [Request(key, at)]) == Next(max, size, Play(max, size, before), key, at)
  {
    assert (before + [Request(key, at)])[..|before|] == before;
  }

  /** From s0 to s, n more of the key have been counted in the generation of window w. */
  predicate Counted(s0: State, s: State, w: nat, key: string, n: nat) {
    var r0, r := Roll(s0, w), Roll(s, w);
    && r.window == r0.window && Get(r.prev, key) == Get(r0.prev, key) && Get(r.cur, key) == Get(r0.cur, key) + n
    && (n > 0 ==> s == r)
  }

  /** The window of s0 rolled to `at` has room for n requests of the key. */
  predicate Room(max: int, size: nat, s0: State, key: string, at: nat, n: nat)
    requires size > 0
  {
    var r := Roll(s0, at / size);
    n > 0 ==> !Blocked(max, Get(r.prev, key), Get(r.cur, key) + n - 1, at, size)
  }

  lemma LessNeedsLessRoom(max: int, size: nat, s0: State, key: string, at: nat, n: nat)
    requires size > 0 && n > 0 && Room(max, size, s0, key, at, n)
    ensures Room(max, size, s0, key, at, n - 1)
  {
    var r := Roll(s0, at / size);
    if n > 1 {
      FewerAreFreer(max, Get(r.prev, key), Get(r.cur, key) + n - 2, Get(r.cur, key) + n - 1, at, size);
    }
  }

  ghost predicate Admits(before: (State, seq<Admission>), after: (State, seq<Admission>), w: nat, key: string, n: nat,
                         lo: int, hi: int)
  {
    Counted(before.0, after.0, w, key, n) && Between(after.1, lo, hi, key) == Between(before.1, lo, hi, key) + n
  }

  lemma BurstStep(max: int, size: nat, p0: (State, seq<Admission>), p: (State, seq<Admission>), key: string, at: nat,
                  n: nat, lo: int, hi: int)
    requires size > 0 && lo <= at < hi && n > 0 && Admits(p0, p, at / size, key, n - 1, lo, hi)
    requires Room(max, size, p0.0, key, at, n)
    ensures Admits(p0, Next(max, size, p, key, at), at / size, key, n, lo, hi)
  {
    TakeCounts(p.0, max, size, key, at);
    var last := Admission(Take(p.0, max, size, key, at).0.window, at, key);
    assert (p.1 + [last])[..|p.1|] == p.1;
  }

  /** A burst at one instant is admitted whole if its last request is within budget. */
  lemma {:induction false} BurstIsAdmitted(max: int, size: nat, before: seq<Request>, key: string, at: nat, n: nat,
                                           lo: int, hi: int)
    requires size > 0 && lo <= at < hi && Room(max, size, Play(max, size, before).0, key, at, n)
    ensures Admits(Play(max, size, before), Play(max, size, before + Burst(key, at, n)), at / size, key, n, lo, hi)
  {
    if n == 0 {
      assert before + Burst(key, at, 0) == before;
    } else {
      LessNeedsLessRoom(max, size, Play(max, size, before).0, key, at, n);
      BurstIsAdmitted(max, size, before, key, at, n - 1, lo, hi);
      var init := before + Burst(key, at, n - 1);
      assert before + Burst(key, at, n) == init + [Request(key, at)];
      PlayOneMore(max, size, init, key, at);
      BurstStep(max, size, Play(max, size, before), Play(max, size, init), key, at, n, lo, hi);
    }
  }

  /** A burst of max from a fresh limiter fills the window it falls into. */
  lemma FillsWindow(max: nat, size: nat, key: string, at: nat, lo: int, hi: int)
    requires max >= 1 && size > 0 && lo <= at < hi
    ensures var (s, log) := Play(max, size, Burst(key, at, max));
            s.window == at / size && Get(s.cur, key) == max && Between(log, lo, hi, key) == max
  {
    assert [] + Burst(key, at, max) == Burst(key, at, max);
    assert Play(max, size, []) == (START, []);
    BurstIsAdmitted(max, size, [], key, at, max, lo, hi);
  }

  lemma SecondBurstFits(max: nat, size: nat, s1: State, key: string)
    requires max >= 1 && size >= 2 * max && s1.window == 0 && Get(s1.cur, key) == max
    ensures Room(max, size, s1, key, 2 * size - 2, max - 1)
  {
    DivUnique(2 * size - 2, size, 1, size - 2);
    if max > 1 {
      assert (max - 1) * size + size == max * size;
      assert !Blocked(max, max, max - 2, 2 * size - 2, size);
    }
  }

  /** After any run that filled window 0, a burst of max - 1 late in window 1 is admitted whole. */
  lemma SecondBurst(max: nat, size: nat, first: seq<Request>, key: string, lo: int, hi: int)
    requires max >= 1 && size >= 2 * max && lo <= 2 * size - 2 < hi
    requires Play(max, size, first).0.window == 0 && Get(Play(max, size, first).0.cur, key) == max
    ensures Between(Play(max, size, first + Burst(key, 2 * size - 2, max - 1)).1, lo, hi, key) ==
            Between(Play(max, size, first).1, lo, hi, key) + max - 1
  {
    SecondBurstFits(max, size, Play(max, size, first).0, key);
    BurstIsAdmitted(max, size, first, key, 2 * size - 2, max - 1, lo, hi);
  }

  lemma BurstsAreAdmitted(max: nat, size: nat, key: string, lo: int, hi: int)
    requires max >= 1 && size >= 2 * max && lo <= size - 1 && 2 * size - 2 < hi
    ensures Between(Play(max, size, Burst(key, size - 1, max) + Burst(key, 2 * size - 2, max - 1)).1, lo, hi, key) ==
            2 * max - 1
  {
    DivUnique(size - 1, size, 0, size - 1);
    FillsWindow(max, size, key, size - 1, lo, hi);
    SecondBurst(max, size, Burst(key, size - 1, max), key, lo, hi);
  }

  lemma BurstsAreInOrder(key: string, a: nat, m: nat, b: nat, n: nat)
    requires a <= b
    ensures Nondecreasing(Burst(key, a, m) + Burst(key, b, n))
  {
  }

  /**
   * The bound on a span is reached, for every limit and every window of at least twice as many units: max
   * Takes in the last unit of a window and max - 1 in the last but one of the next are all admitted.
   */
  lemma SpanBoundIsReached(max: nat, size: nat, key: string)
    requires max >= 1 && size >= 2 * max
    ensures var requests := Burst(key, size - 1, max) + Burst(key, 2 * size - 2, max - 1);
            && Nondecreasing(requests)
            && Between(Play(max, size, requests).1, size - 1, size - 1 + size, key) == 2 * max - 1
  {
    BurstsAreInOrder(key, size - 1, max, 2 * size - 2, max - 1);
    BurstsAreAdmitted(max, size, key, size - 1, size - 1 + size);
  }

  /** After is 0 exactly when a Take at that instant would admit, in any state and for any clock. */
  lemma AfterIsZeroIffTakeAdmits(s: State, max: int, size: nat, key: string, now: nat)
    requires size > 0
    ensures After(s, max, size, key, now) == 0 <==> Take(s, max, size, key, now).1
  {
    var (prev, cur) := Peek(s, key, now / size);
    AfterIsZero(max, prev, cur, size, now);
  }

  /** Takes in (from, to] order of instants, none of which admits anything for `key`. */
  ghost predicate Quiet(s: State, max: int, size: nat, requests: seq<Request>, key: string, from: nat, to: nat)
    requires size > 0
    decreases |requests|
  {
    requests == [] ||
    var r := requests[0];
    && from <= r.now <= to
    && (r.key == key ==> !Take(s, max, size, key, r.now).1)
    && Quiet(Take(s, max, size, r.key, r.now).0, max, size, requests[1..], key, r.now, to)
  }

  function AfterAll(s: State, max: int, size: nat, requests: seq<Request>): State
    requires size > 0
    decreases |requests|
  {
    if requests == [] then s
    else AfterAll(Take(s, max, size, requests[0].key, requests[0].now).0, max, size, requests[1..])
  }

  lemma {:induction false} QuietKeepsCounts(
    s: State, max: int, size: nat, requests: seq<Request>, key: string, from: nat, to: nat)
    requires size > 0 && from <= to && Quiet(s, max, size, requests, key, from, to)
    ensures Peek(AfterAll(s, max, size, requests), key, to / size) == Peek(s, key, to / size)
    decreases |requests|
  {
    if requests != [] {
      var r := requests[0];
      var s' := Take(s, max, size, r.key, r.now).0;
      DivMonotone(r.now, to, size);
      assert Peek(s', key, to / size) == Peek(s, key, to / size);
      QuietKeepsCounts(s', max, size, requests[1..], key, r.now, to);
    }
  }

  /**
   * The wait the limiter reports is kept: whatever other keys do and however often this key is refused
   * meanwhile, a Take at or after now + After is admitted, provided the clock has not stepped behind the
   * limiter's window when the wait was asked for.
   */
  lemma WaitIsKept(s: State, max: int, size: nat, key: string, now: nat, requests: seq<Request>, t: nat)
    requires size > 0 && max >= 1 && now / size >= s.window
    requires t >= now + After(s, max, size, key, now)
    requires Quiet(s, max, size, requests, key, now, t)
    ensures Take(AfterAll(s, max, size, requests), max, size, key, t).1
  {
    var (prev, cur) := Peek(s, key, now / size);
    AfterIsSound(max, prev, cur, size, now, t);
    WindowOf(size, now, t);
    assert Peek(s, key, t / size) == Aged(prev, cur, size, now, t);
    QuietKeepsCounts(s, max, size, requests, key, now, t);
  }

  /**
   * The clock condition is exact: for every limit, window size and instant behind the limiter's window
   * there are counts for which the wait runs out at a boundary where no roll happens, and the Take fails.
   */
  lemma BackwardClockBreaksTheWait(max: int, size: nat, now: nat, window: nat, key: string)
    requires size > 0 && max >= 1 && window > now / size
    ensures var s := State(window, map[key := max - 1], map[key := 1]);
            var after := After(s, max, size, key, now);
            after > 0 && !Take(s, max, size, key, now + after).1
  {
    WindowOf(size, now, now);
    RightOrder(1, 1, size - now % size);
    WindowOf(size, now, now + ToBoundary(now, size));
  }

  /** A key whose counts of both generations and one more fit within the limit is never refused. */
  lemma RoomForBoth(max: int, prev: nat, cur: nat, t: nat, size: nat)
    requires size > 0 && prev + cur + 1 <= max
    ensures !Blocked(max, prev, cur, t, size) && !Blocked(max, cur, 0, t, size) && !Blocked(max, 0, 0, t, size)
  {
    RightOrder(prev, size - t % size, size);
    RightOrder(cur, size - t % size, size);
    assert (prev + cur + 1) * size == prev * size + (cur + 1) * size;
    MulOrder(prev + cur + 1, max, size);
    MulOrder(cur + 1, max, size);
    MulOrder(1, max, size);
    assert (cur + 1) * size == cur * size + size;
  }

  /** With a slot left in the current generation, the wait ends at the next boundary at the latest. */
  lemma WaitEndsAtBoundary(max: int, prev: nat, cur: nat, size: nat, now: nat)
    requires size > 0 && cur + 1 <= max
    ensures AfterAt(max, prev, cur, size, now) <= ToBoundary(now, size)
  {
    WindowOf(size, now, now);
    var fade, spare := prev * (size - now % size), max - cur - 1;
    if Blocked(max, prev, cur, now, size) && spare > 0 {
      ReliefArith(max, prev, cur, size, now);
      QuotientBounds(fade - spare * size, prev);
      InWindowArith(max, prev, cur, size, now % size, (fade - spare * size) / prev, 0);
    }
  }

  /** At the start of the window itself nothing has faded yet. */
  lemma BlockedAtBoundary(max: int, prev: nat, cur: nat, size: nat, window: nat)
    requires size > 0 && prev + cur + 1 > max
    ensures (window * size) / size == window && Blocked(max, prev, cur, window * size, size)
  {
    DivUnique(window * size, size, window, 0);
    MulOrder(max + 1, prev + cur + 1, size);
    assert (max + 1) * size == max * size + size;
    assert (prev + cur + 1) * size == prev * size + (cur + 1) * size;
  }

  /** A full generation: the wait runs into the window after the next, where it has faded once at most. */
  lemma FullWaitFallsShort(s: State, max: int, size: nat, key: string, now: nat)
    requires size > 1 && max >= 1 && now / size < s.window && Get(s.cur, key) >= max
    ensures After(s, max, size, key, now) > 0
    ensures !Take(s, max, size, key, now + After(s, max, size, key, now)).1
  {
    var prev, cur := Get(s.prev, key), Get(s.cur, key);
    var q := (cur * size - (max - 1) * size) / cur;
    FullIsBlocked(max, prev, cur, now, size);
    QuotientBounds(cur * size - (max - 1) * size, cur);
    NextWindowArith(max, cur, size, q, 0);
    WindowOf(size, now, now);
    var b := now + ToBoundary(now, size);
    var t := b + q + 1;
    WindowOf(size, now, b);
    WindowOf(size, b, t);
    if t / size <= s.window {
      FullIsBlocked(max, prev, cur, t, size);
    } else {
      NextWindowArith(max, cur, size, q, t % size);
    }
  }

  /**
   * Exactly which waits asked for behind the limiter's window hold (windows of one unit aside): those of the
   * keys that have room for one more on top of both generations. Such a key is told not to wait at all; for
   * every other one some Take at or after the instant it was told to wait for is refused.
   */
  lemma BackwardWaitHoldsIff(s: State, max: int, size: nat, key: string, now: nat)
    requires size > 1 && max >= 1 && now / size < s.window
    ensures (forall t: nat | t >= now + After(s, max, size, key, now) :: Take(s, max, size, key, t).1) <==>
            Get(s.prev, key) + Get(s.cur, key) + 1 <= max
  {
    var prev, cur := Get(s.prev, key), Get(s.cur, key);
    if prev + cur + 1 <= max {
      forall t: nat ensures Take(s, max, size, key, t).1 {
        RoomForBoth(max, prev, cur, t, size);
      }
    } else {
      var t := RefusedAfterWait(s, max, size, key, now);
      assert !Take(s, max, size, key, t).1;
    }
  }

  lemma RefusedAfterWait(s: State, max: int, size: nat, key: string, now: nat) returns (t: nat)
    requires size > 1 && max >= 1 && now / size < s.window && Get(s.prev, key) + Get(s.cur, key) + 1 > max
    ensures t >= now + After(s, max, size, key, now) && !Take(s, max, size, key, t).1
  {
    var prev, cur := Get(s.prev, key), Get(s.cur, key);
    if cur >= max {
      FullWaitFallsShort(s, max, size, key, now);
      t := now + After(s, max, size, key, now);
    } else {
      t := s.window * size;
      WaitEndsAtBoundary(max, prev, cur, size, now);
      MulOrder(now / size + 1, s.window, size);
      BlockedAtBoundary(max, prev, cur, size, s.window);
    }
  }

  /**
   * The failing states are reached: a burst of max Takes fills a window, the clock steps back to any instant
   * before that window, and the wait reported there does not hold.
   */
  lemma BackwardFailureIsReached(max: nat, size: nat, key: string, at: nat, now: nat) returns (t: nat)
    requires size > 1 && max >= 1 && now / size < at / size
    ensures var s := Play(max, size, Burst(key, at, max)).0;
            && s.window == at / size && Get(s.cur, key) == max
            && t == now + After(s, max, size, key, now) && !Take(s, max, size, key, t).1
  {
    var s := Play(max, size, Burst(key, at, max)).0;
    FillsWindow(max, size, key, at, at, at + 1);
    FullWaitFallsShort(s, max, size, key, now);
    t := now + After(s, max, size, key, now);
  }

  class Strategy {
    var window: nat
    var cur: map<string, nat>
    var prev: map<string, nat>
    const max: int
    const size: nat
    ghost var log: seq<Admission>

    ghost function View(): State
      reads this
    {
      State(window, cur, prev)
    }

    ghost predicate Valid()
      reads this
    {
      size > 0 && LogInv(View(), log, max)
    }

    constructor (rate: int, size: nat)
      requires size > 0
      ensures Valid() && View() == START && log == [] && max == rate && this.size == size
    {
      window, cur, prev, log, max := 0, map[], map[], [], rate;
      this.size := size;
    }

    method Advance(currentWindow: nat)
      modifies this`window, this`cur, this`prev
      ensures View() == Roll(old(View()), currentWindow)
    {
      var d := currentWindow - window;
      if d <= 0 {
        return;
      }
      if d == 1 {
        prev, cur := cur, map[];
      } else {
        prev, cur := map[], map[];
      }
      window := currentWindow;
    }

    method Admit(key: string, now: nat) returns (ok: bool)
      requires Valid()
      modifies this
      ensures Valid() && (View(), ok) == Take(old(View()), max, size, key, now)
      ensures log == if ok then old(log) + [Admission(window, now, key)] else old(log)
    {
      TakeKeepsLogInv(View(), log, max, size, key, now);
      Advance(now / size);
      var p, c := Get(prev, key), Get(cur, key);
      if Blocked(max, p, c, now, size) {
        return false;
      }
      cur := cur[key := c + 1];
      log := log + [Admission(window, now, key)];
      return true;
    }

    method WaitFor(key: string, now: nat) returns (after: int)
      requires Valid()
      ensures after == After(View(), max, size, key, now)
      ensures after == 0 <==> Take(View(), max, size, key, now).1
    {
      var p, c := 0, 0;
      var d := now / size - window;
      if d <= 0 {
        p, c := Get(prev, key), Get(cur, key);
      } else if d == 1 {
        p := Get(cur, key);
      }
      after := AfterAt(max, p, c, size, now);
      AfterIsZeroIffTakeAdmits(View(), max, size, key, now);
    }
  }
}
