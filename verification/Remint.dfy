/** The edge's re-mint coordinator: single flight, backoff and two circuit breakers (edge/remint.go). */
module Remint {
  const SECOND: int := 1_000_000_000

  /** Durations in nanoseconds; a field that is not positive asks for its default. */
  datatype Config = Config(jitter: int, base: int, max: int, cooldown: int, k: int, j: int) {
    predicate Valid() {
      jitter > 0 && base > 0 && max > 0 && cooldown > 0 && k > 0 && j > 0
    }
  }

  function Or(x: int, d: int): int {
    if x <= 0 then d else x
  }

  function Defaulted(c: Config): (r: Config)
    ensures r.Valid()
  {
    var m := Or(c.max, 300 * SECOND);
    Config(Or(c.jitter, 60 * SECOND), Or(c.base, 2 * SECOND), m, Or(c.cooldown, 5 * m), Or(c.k, 3), Or(c.j, 5))
  }

  /** A ca_id and an active-signer fingerprint; "" is unknown. */
  datatype Leaf = Leaf(caId: string, fp: string)

  datatype Kind = Proactive | Reactive | Timer

  datatype Outcome = Minted(leaf: Leaf) | NotMinted(retryAfter: int)

  /** What runOnce reads before it mints. */
  datatype Captured = Captured(kind: Kind, target: Leaf, backoff: int, before: Leaf)

  /** Times are nanoseconds after the zero time, which is the end of a closed breaker. */
  datatype State = State(
    inFlight: bool, backoff: int,
    reactiveNoFlip: nat, reactiveEnd: int,
    proactiveNoConverge: nat, proactiveEnd: int,
    target: Leaf, held: Leaf)

  predicate Mismatch(target: Leaf, held: Leaf) {
    || (held.caId != "" && target.caId != held.caId)
    || (target.fp != "" && held.fp != "" && target.fp != held.fp)
  }

  predicate Converged(target: Leaf, held: Leaf) {
    target.caId != "" && held.caId == target.caId && (target.fp == "" || held.fp == target.fp)
  }

  predicate Accepts(s: State, kind: Kind, now: nat) {
    && !s.inFlight
    && !(kind.Reactive? && now < s.reactiveEnd)
    && !(kind.Proactive? && now < s.proactiveEnd)
  }

  function Triggered(s: State, kind: Kind, now: nat): State {
    if Accepts(s, kind, now) then s.(inFlight := true) else s
  }

  predicate ObserveTriggers(s: State, target: Leaf) {
    target.caId != "" && Mismatch(target, s.held)
  }

  function Observed(s: State, target: Leaf, now: nat): State {
    if target.caId == "" then s
    else
      var s' := s.(target := target);
      if ObserveTriggers(s', target) then Triggered(s', Proactive, now) else s'
  }

  function MinDur(a: int, b: int): int {
    if a < b then a else b
  }

  function ChooseSleep(backoff: int, retryAfter: int): int {
    if retryAfter > backoff then retryAfter else backoff
  }

  /** The classification after a mint: the new state, and how long to sleep before the jitter. */
  function Scored(cfg: Config, s: State, c: Captured, r: Outcome, now: nat): (State, int) {
    match r
    case NotMinted(retryAfter) =>
      (s.(backoff := MinDur(c.backoff * 2, cfg.max)), ChooseSleep(c.backoff, retryAfter))
    case Minted(leaf) =>
      var a := s.(backoff := cfg.base, held := leaf);
      var b :=
        if leaf != c.before then a.(reactiveNoFlip := 0, reactiveEnd := 0)
        else if !c.kind.Reactive? then a
        else if a.reactiveNoFlip + 1 >= cfg.k then
          a.(reactiveNoFlip := a.reactiveNoFlip + 1, reactiveEnd := now + cfg.cooldown)
        else a.(reactiveNoFlip := a.reactiveNoFlip + 1);
      var d :=
        if !c.kind.Proactive? then b
        else if Converged(c.target, leaf) then b.(proactiveNoConverge := 0, proactiveEnd := 0)
        else if b.proactiveNoConverge + 1 >= cfg.j then
          b.(proactiveNoConverge := b.proactiveNoConverge + 1, proactiveEnd := now + cfg.cooldown)
        else b.(proactiveNoConverge := b.proactiveNoConverge + 1);
      (d, 0)
  }

  function Fresh(cfg: Config, held: Leaf): State {
    State(false, cfg.base, 0, 0, 0, 0, Leaf("", ""), held)
  }

  class RemintCoordinator {
    const cfg: Config
    var inFlight: bool
    var backoff: int
    var reactiveNoFlip: nat
    var reactiveBreakerEnd: int
    var proactiveNoConverge: nat
    var proactiveBreakerEnd: int
    var lastTarget: Leaf
    var held: Leaf

    ghost function View(): State
      reads this
    {
      State(inFlight, backoff, reactiveNoFlip, reactiveBreakerEnd, proactiveNoConverge, proactiveBreakerEnd,
            lastTarget, held)
    }

    constructor (cfg: Config, held: Leaf)
      ensures this.cfg == Defaulted(cfg) && View() == Fresh(this.cfg, held)
    {
      var c := Defaulted(cfg);
      this.cfg := c;
      inFlight, backoff := false, c.base;
      reactiveNoFlip, reactiveBreakerEnd, proactiveNoConverge, proactiveBreakerEnd := 0, 0, 0, 0;
      lastTarget, this.held := Leaf("", ""), held;
    }

    /** Non-blocking; `spawned` says that a mint goroutine was started. */
    method Trigger(kind: Kind, now: nat) returns (spawned: bool)
      modifies this`inFlight
      ensures spawned == old(Accepts(View(), kind, now)) && View() == old(Triggered(View(), kind, now))
    {
      if inFlight {
        return false;
      }
      if kind == Reactive && now < reactiveBreakerEnd {
        return false;
      }
      if kind == Proactive && now < proactiveBreakerEnd {
        return false;
      }
      inFlight := true;
      return true;
    }

    method Observe(target: Leaf, now: nat) returns (spawned: bool)
      modifies this`inFlight, this`lastTarget
      ensures View() == old(Observed(View(), target, now))
      ensures spawned == old(ObserveTriggers(View(), target) && Accepts(View(), Proactive, now))
    {
      if target.caId == "" {
        return false;
      }
      lastTarget := target;
      var caMismatch := held.caId != "" && target.caId != held.caId;
      var fpMismatch := target.fp != "" && held.fp != "" && target.fp != held.fp;
      if !caMismatch && !fpMismatch {
        return false;
      }
      spawned := Trigger(Proactive, now);
    }

    method Begin(kind: Kind) returns (c: Captured)
      ensures c == Captured(kind, lastTarget, backoff, held)
    {
      c := Captured(kind, lastTarget, backoff, held);
    }

    method Finish(c: Captured, r: Outcome, now: nat) returns (sleepFor: int)
      modifies this
      ensures (View(), sleepFor) == old(Scored(cfg, View(), c, r, now))
    {
      sleepFor := 0;
      match r {
        case NotMinted(retryAfter) =>
          backoff := MinDur(c.backoff * 2, cfg.max);
          sleepFor := ChooseSleep(c.backoff, retryAfter);
        case Minted(leaf) =>
          held := leaf;
          backoff := cfg.base;
          if leaf != c.before {
            reactiveNoFlip, reactiveBreakerEnd := 0, 0;
          } else if c.kind == Reactive {
            reactiveNoFlip := reactiveNoFlip + 1;
            if reactiveNoFlip >= cfg.k {
              reactiveBreakerEnd := now + cfg.cooldown;
            }
          }
          if c.kind == Proactive {
            if Converged(c.target, leaf) {
              proactiveNoConverge, proactiveBreakerEnd := 0, 0;
            } else {
              proactiveNoConverge := proactiveNoConverge + 1;
              if proactiveNoConverge >= cfg.j {
                proactiveBreakerEnd := now + cfg.cooldown;
              }
            }
          }
      }
    }

    method Release()
      modifies this`inFlight
      ensures View() == old(View()).(inFlight := false)
    {
      inFlight := false;
    }
  }

  // All runs, against the history of completed mints.

  /** One completed mint: what asked for it, what it did, and when. */
  datatype Mint = Mint(kind: Kind, ok: bool, flipped: bool, converged: bool, at: nat, retryAfter: int, slept: int)

  datatype Proc = Spawned(kind: Kind) | Minting(captured: Captured) | Sleeping | Ended

  datatype World = World(state: State, procs: map<nat, Proc>, history: seq<Mint>)

  datatype Step =
    | Ask(pid: nat, kind: Kind, now: nat)
    | Watch(pid: nat, target: Leaf, now: nat)
    | Begin(pid: nat)
    | Finish(pid: nat, outcome: Outcome, now: nat)
    | End(pid: nat)   // the goroutine returns or panics, wherever it is

  predicate Live(w: World, pid: nat) {
    pid in w.procs && !w.procs[pid].Ended?
  }

  predicate Enabled(w: World, step: Step) {
    match step
    case Ask(pid, _, _) => pid !in w.procs
    case Watch(pid, _, _) => pid !in w.procs
    case Begin(pid) => pid in w.procs && w.procs[pid].Spawned?
    case Finish(pid, _, _) => pid in w.procs && w.procs[pid].Minting?
    case End(pid) => Live(w, pid)
  }

  function Exec(cfg: Config, w: World, step: Step): World
    requires Enabled(w, step)
  {
    match step
    case Ask(pid, kind, now) =>
      w.(state := Triggered(w.state, kind, now),
         procs := if Accepts(w.state, kind, now) then w.procs[pid := Spawned(kind)] else w.procs)
    case Watch(pid, target, now) =>
      w.(state := Observed(w.state, target, now),
         procs := if ObserveTriggers(w.state, target) && Accepts(w.state, Proactive, now)
                  then w.procs[pid := Spawned(Proactive)] else w.procs)
    case Begin(pid) =>
      w.(procs := w.procs[pid := Minting(Captured(w.procs[pid].kind, w.state.target, w.state.backoff, w.state.held))])
    case Finish(pid, outcome, now) =>
      var c := w.procs[pid].captured;
      var (s, slept) := Scored(cfg, w.state, c, outcome, now);
      World(s, w.procs[pid := Sleeping], w.history + [Record(c, outcome, now, slept)])
    case End(pid) => w.(state := w.state.(inFlight := false), procs := w.procs[pid := Ended])
  }

  function Record(c: Captured, r: Outcome, now: nat, slept: int): Mint {
    match r
    case Minted(leaf) => Mint(c.kind, true, leaf != c.before, Converged(c.target, leaf), now, 0, slept)
    case NotMinted(retryAfter) => Mint(c.kind, false, false, false, now, retryAfter, slept)
  }

  predicate Legal(cfg: Config, w: World, steps: seq<Step>)
    decreases |steps|, 0
  {
    steps == [] ||
    var n := |steps| - 1;
    Legal(cfg, w, steps[..n]) && Enabled(Run(cfg, w, steps[..n]), steps[n])
  }

  function Run(cfg: Config, w: World, steps: seq<Step>): World
    requires Legal(cfg, w, steps)
    decreases |steps|, 1
  {
    if steps == [] then w else Exec(cfg, Run(cfg, w, steps[..|steps| - 1]), steps[|steps| - 1])
  }

  function Boot(cfg: Config, held: Leaf): World {
    World(Fresh(cfg, held), map[], [])
  }

  // What a mint is scored against.

  /** The last target observed; an observation without a ca_id is none. */
  function LastTarget(steps: seq<Step>): Leaf {
    if steps == [] then Leaf("", "")
    else
      var s := steps[|steps| - 1];
      if s.Watch? && s.target.caId != "" then s.target else LastTarget(steps[..|steps| - 1])
  }

  /** The leaf held: that of the last mint that succeeded. */
  function LastLeaf(held: Leaf, steps: seq<Step>): Leaf {
    if steps == [] then held
    else
      var s := steps[|steps| - 1];
      if s.Finish? && s.outcome.Minted? then s.outcome.leaf else LastLeaf(held, steps[..|steps| - 1])
  }

  lemma StepSets(cfg: Config, w: World, s: Step)
    requires Enabled(w, s)
    ensures var next := Exec(cfg, w, s).state;
            && next.target == (if s.Watch? && s.target.caId != "" then s.target else w.state.target)
            && next.held == (if s.Finish? && s.outcome.Minted? then s.outcome.leaf else w.state.held)
  {
  }

  lemma {:induction false} TargetAndHeld(cfg: Config, held: Leaf, steps: seq<Step>)
    requires Legal(cfg, Boot(cfg, held), steps)
    ensures var s := Run(cfg, Boot(cfg, held), steps).state;
            s.target == LastTarget(steps) && s.held == LastLeaf(held, steps)
  {
    if steps != [] {
      var init := steps[..|steps| - 1];
      TargetAndHeld(cfg, held, init);
      StepSets(cfg, Run(cfg, Boot(cfg, held), init), steps[|steps| - 1]);
    }
  }

  /** A mint goroutine asked for what the first step with its number said. */
  predicate AskedFor(s: Step, pid: nat, kind: Kind) {
    (s.Ask? && s.pid == pid && s.kind == kind) || (s.Watch? && s.pid == pid && kind == Proactive)
  }

  ghost predicate SpawnedBy(steps: seq<Step>, pid: nat, kind: Kind) {
    exists a | 0 <= a < |steps| :: AskedFor(steps[a], pid, kind)
  }

  lemma StillSpawned(steps: seq<Step>, s: Step, pid: nat, kind: Kind)
    requires SpawnedBy(steps, pid, kind) || AskedFor(s, pid, kind)
    ensures SpawnedBy(steps + [s], pid, kind)
  {
    if a :| 0 <= a < |steps| && AskedFor(steps[a], pid, kind) {
      assert AskedFor((steps + [s])[a], pid, kind);
    } else {
      assert (steps + [s])[|steps|] == s;
    }
  }

  /** At step b the goroutine began, and took what had been observed and was held by then. */
  predicate BeganAt(held: Leaf, steps: seq<Step>, pid: nat, c: Captured, b: nat)
    requires b < |steps|
  {
    steps[b] == Begin(pid) && c.target == LastTarget(steps[..b]) && c.before == LastLeaf(held, steps[..b])
  }

  ghost predicate Began(held: Leaf, steps: seq<Step>, pid: nat, c: Captured) {
    exists b | 0 <= b < |steps| :: BeganAt(held, steps, pid, c, b)
  }

  lemma StillBegan(held: Leaf, steps: seq<Step>, s: Step, pid: nat, c: Captured)
    requires Began(held, steps, pid, c) ||
             (s == Begin(pid) && c.target == LastTarget(steps) && c.before == LastLeaf(held, steps))
    ensures Began(held, steps + [s], pid, c)
  {
    var more := steps + [s];
    if b :| 0 <= b < |steps| && BeganAt(held, steps, pid, c, b) {
      assert more[..b] == steps[..b] && BeganAt(held, more, pid, c, b);
    } else {
      assert more[..|steps|] == steps && BeganAt(held, more, pid, c, |steps|);
    }
  }

  /** Every goroutine is of the kind that was asked for, and every mint under way began as recorded. */
  ghost predicate ProcInv(held: Leaf, steps: seq<Step>, w: World) {
    forall p | p in w.procs ::
      && (w.procs[p].Spawned? ==> SpawnedBy(steps, p, w.procs[p].kind))
      && (w.procs[p].Minting? ==>
            SpawnedBy(steps, p, w.procs[p].captured.kind) && Began(held, steps, p, w.procs[p].captured))
  }

  lemma {:induction false} MintsBeginAsRecorded(cfg: Config, held: Leaf, steps: seq<Step>)
    requires Legal(cfg, Boot(cfg, held), steps)
    ensures ProcInv(held, steps, Run(cfg, Boot(cfg, held), steps))
  {
    if steps != [] {
      var init, s := steps[..|steps| - 1], steps[|steps| - 1];
      var w, w' := Run(cfg, Boot(cfg, held), init), Run(cfg, Boot(cfg, held), steps);
      MintsBeginAsRecorded(cfg, held, init);
      TargetAndHeld(cfg, held, init);
      assert init + [s] == steps;
      forall p | p in w'.procs
        ensures w'.procs[p].Spawned? ==> SpawnedBy(steps, p, w'.procs[p].kind)
        ensures w'.procs[p].Minting? ==>
                  SpawnedBy(steps, p, w'.procs[p].captured.kind) && Began(held, steps, p, w'.procs[p].captured)
      {
        ProcStep(cfg, held, init, s, w, p);
      }
    }
  }

  lemma ProcStep(cfg: Config, held: Leaf, init: seq<Step>, s: Step, w: World, p: nat)
    requires ProcInv(held, init, w) && Enabled(w, s) && p in Exec(cfg, w, s).procs
    requires w.state.target == LastTarget(init) && w.state.held == LastLeaf(held, init)
    ensures var proc := Exec(cfg, w, s).procs[p];
            && (proc.Spawned? ==> SpawnedBy(init + [s], p, proc.kind))
            && (proc.Minting? ==>
                  SpawnedBy(init + [s], p, proc.captured.kind) && Began(held, init + [s], p, proc.captured))
  {
    var proc := Exec(cfg, w, s).procs[p];
    if proc.Spawned? {
      StillSpawned(init, s, p, proc.kind);
    } else if proc.Minting? {
      StillSpawned(init, s, p, proc.captured.kind);
      StillBegan(held, init, s, p, proc.captured);
    }
  }

  /**
   * What a successful mint is scored against, in every run: the last target observed before it began, which it
   * reached if it has its ca_id and, if that is known, its fingerprint; and the leaf held then, which it flipped
   * if it differs from it. The new leaf is held from then on.
   */
  lemma MintIsScoredAgainstLastTarget(config: Config, held: Leaf, steps: seq<Step>, pid: nat, leaf: Leaf, now: nat)
    returns (b: nat)
    requires Legal(Defaulted(config), Boot(Defaulted(config), held), steps + [Finish(pid, Minted(leaf), now)])
    ensures var cfg := Defaulted(config);
            var w := Run(cfg, Boot(cfg, held), steps + [Finish(pid, Minted(leaf), now)]);
            && w.history != [] && b < |steps| && steps[b] == Begin(pid)
            && var m, target := w.history[|w.history| - 1], LastTarget(steps[..b]);
            && m.ok && m.at == now && SpawnedBy(steps, pid, m.kind)
            && (m.converged <==> target.caId != "" && leaf.caId == target.caId
                                 && (target.fp == "" || leaf.fp == target.fp))
            && (m.flipped <==> leaf != LastLeaf(held, steps[..b]))
            && w.state.held == leaf
  {
    var cfg := Defaulted(config);
    var all := steps + [Finish(pid, Minted(leaf), now)];
    assert all[..|steps|] == steps;
    var w := Run(cfg, Boot(cfg, held), steps);
    MintsBeginAsRecorded(cfg, held, steps);
    TargetAndHeld(cfg, held, all);
    b :| 0 <= b < |steps| && BeganAt(held, steps, pid, w.procs[pid].captured, b);
  }

  /** The defaults: a minute of jitter, 2 seconds doubling to 5 minutes, breakers at 3 and 5. */
  lemma Defaults(c: Config)
    ensures Defaulted(Config(0, 0, 0, 0, 0, 0)) ==
            Config(60_000_000_000, 2_000_000_000, 300_000_000_000, 1_500_000_000_000, 3, 5)
    ensures c.Valid() ==> Defaulted(c) == c
    ensures c.max > 0 && c.cooldown <= 0 ==> Defaulted(c).cooldown == 5 * c.max
  {
  }

  predicate Futile(m: Mint) {
    m.ok && m.kind.Reactive? && !m.flipped
  }

  predicate Missed(m: Mint) {
    m.ok && m.kind.Proactive? && !m.converged
  }

  /** Index just after the last successful mint that flipped the leaf, whatever triggered it. */
  function SinceFlip(h: seq<Mint>): (from: nat)
    ensures from <= |h| && (forall i | from <= i < |h| :: !(h[i].ok && h[i].flipped))
    ensures from > 0 ==> h[from - 1].ok && h[from - 1].flipped
  {
    if h == [] then 0
    else if h[|h| - 1].ok && h[|h| - 1].flipped then |h|
    else SinceFlip(h[..|h| - 1])
  }

  /** Index just after the last successful proactive mint that reached the target it had observed. */
  function SinceReached(h: seq<Mint>): (from: nat)
    ensures from <= |h| && (forall i | from <= i < |h| :: !(h[i].ok && h[i].kind.Proactive? && h[i].converged))
    ensures from > 0 ==> h[from - 1].ok && h[from - 1].kind.Proactive? && h[from - 1].converged
  {
    if h == [] then 0
    else if h[|h| - 1].ok && h[|h| - 1].kind.Proactive? && h[|h| - 1].converged then |h|
    else SinceReached(h[..|h| - 1])
  }

  /** How many mints at the end of the history failed in a row. */
  function Failures(h: seq<Mint>): (n: nat)
    ensures n <= |h| && (forall i | |h| - n <= i < |h| :: !h[i].ok)
    ensures n < |h| ==> h[|h| - n - 1].ok
  {
    if h == [] || h[|h| - 1].ok then 0 else Failures(h[..|h| - 1]) + 1
  }

  ghost function Futiles(h: seq<Mint>): set<nat> {
    set i: nat | SinceFlip(h) <= i < |h| && Futile(h[i])
  }

  ghost function Misses(h: seq<Mint>): set<nat> {
    set i: nat | SinceReached(h) <= i < |h| && Missed(h[i])
  }

  /** A breaker stands `cooldown` after the latest of the mints counted against it, from the limit on. */
  ghost predicate Breaker(h: seq<Mint>, counted: set<nat>, limit: int, end: int, cooldown: int) {
    if |counted| >= limit then exists last | last in counted && last < |h| :: OpenedAt(h, counted, last, end, cooldown)
    else end == 0
  }

  ghost predicate OpenedAt(h: seq<Mint>, counted: set<nat>, last: nat, end: int, cooldown: int)
    requires last < |h|
  {
    (forall i | i in counted :: i <= last) && end == h[last].at + cooldown
  }

  function Pow2(n: nat): (p: nat)
    ensures p >= 1
  {
    if n == 0 then 1 else 2 * Pow2(n - 1)
  }

  /** The backoff after n consecutive failures. */
  function BackoffAfter(cfg: Config, n: nat): int {
    if n == 0 then cfg.base else MinDur(cfg.base * Pow2(n), cfg.max)
  }

  ghost predicate SleptWell(cfg: Config, h: seq<Mint>, i: nat)
    requires i < |h|
  {
    !h[i].ok ==> h[i].slept == ChooseSleep(BackoffAfter(cfg, Failures(h[..i])), h[i].retryAfter)
  }

  ghost predicate FlightInv(w: World) {
    && (forall p, q | Live(w, p) && Live(w, q) :: p == q)
    && (w.state.inFlight <==> exists p :: Live(w, p))
    && (forall p | p in w.procs && w.procs[p].Minting? ::
          w.procs[p].captured.backoff == w.state.backoff && w.procs[p].captured.before == w.state.held)
  }

  ghost predicate Scores(h: seq<Mint>, counted: set<nat>, limit: int, cooldown: int, n: nat, end: int) {
    n == |counted| && Breaker(h, counted, limit, end, cooldown)
  }

  ghost predicate ScoreInv(cfg: Config, s: State, h: seq<Mint>) {
    && s.backoff == BackoffAfter(cfg, Failures(h))
    && Scores(h, Futiles(h), cfg.k, cfg.cooldown, s.reactiveNoFlip, s.reactiveEnd)
    && Scores(h, Misses(h), cfg.j, cfg.cooldown, s.proactiveNoConverge, s.proactiveEnd)
  }

  ghost predicate Inv(cfg: Config, w: World) {
    && FlightInv(w) && ScoreInv(cfg, w.state, w.history)
    && forall i | 0 <= i < |w.history| :: SleptWell(cfg, w.history, i)
  }

  lemma Doubles(base: int, max: int, p: int, b: int)
    requires base > 0 && max > 0 && p >= 1 && (b == MinDur(base * p, max) || (p == 1 && b == base))
    ensures MinDur(b * 2, max) == MinDur(base * (2 * p), max)
  {
    var product := base * p;
    assert base * (2 * p) == 2 * product;
    PositiveProduct(base, p);
  }

  lemma BackoffDoubles(cfg: Config, n: nat)
    requires cfg.Valid()
    ensures MinDur(BackoffAfter(cfg, n) * 2, cfg.max) == BackoffAfter(cfg, n + 1)
  {
    Doubles(cfg.base, cfg.max, Pow2(n), BackoffAfter(cfg, n));
  }

  lemma FutilesGrow(h: seq<Mint>, m: Mint)
    ensures Futiles(h + [m]) ==
            if m.ok && m.flipped then {} else if Futile(m) then Futiles(h) + {|h|} else Futiles(h)
    ensures |h| !in Futiles(h)
  {
    var g := h + [m];
    assert g[..|h|] == h && g[|h|] == m;
    var grown := if m.ok && m.flipped then {} else if Futile(m) then Futiles(h) + {|h|} else Futiles(h);
    assert SinceFlip(g) == if m.ok && m.flipped then |g| else SinceFlip(h);
    forall i: nat ensures i in Futiles(g) <==> i in grown {
      assert i < |h| ==> g[i] == h[i];
    }
  }

  lemma MissesGrow(h: seq<Mint>, m: Mint)
    ensures Misses(h + [m]) ==
            if m.ok && m.kind.Proactive? && m.converged then {}
            else if Missed(m) then Misses(h) + {|h|} else Misses(h)
    ensures |h| !in Misses(h)
  {
    var g := h + [m];
    assert g[..|h|] == h && g[|h|] == m;
    var reached := m.ok && m.kind.Proactive? && m.converged;
    var grown := if reached then {} else if Missed(m) then Misses(h) + {|h|} else Misses(h);
    assert SinceReached(g) == if reached then |g| else SinceReached(h);
    forall i: nat ensures i in Misses(g) <==> i in grown {
      assert i < |h| ==> g[i] == h[i];
    }
  }

  lemma BreakerKept(h: seq<Mint>, m: Mint, counted: set<nat>, limit: int, end: int, cooldown: int)
    requires Breaker(h, counted, limit, end, cooldown)
    ensures Breaker(h + [m], counted, limit, end, cooldown)
  {
    if |counted| >= limit {
      var last :| last in counted && last < |h| && OpenedAt(h, counted, last, end, cooldown);
      assert OpenedAt(h + [m], counted, last, end, cooldown);
    }
  }

  lemma BreakerCounts(h: seq<Mint>, m: Mint, counted: set<nat>, limit: int, end: int, cooldown: int)
    requires Breaker(h, counted, limit, end, cooldown) && forall i | i in counted :: i < |h|
    ensures Breaker(h + [m], counted + {|h|}, limit,
                    if |counted| + 1 >= limit then m.at + cooldown else end, cooldown)
  {
    assert |counted + {|h|}| == |counted| + 1;
    if |counted| + 1 >= limit {
      assert OpenedAt(h + [m], counted + {|h|}, |h|, m.at + cooldown, cooldown);
    }
  }

  /** How one mint moves a counter and its breaker. */
  predicate Moves(resets: bool, adds: bool, limit: int, reopened: int, n: nat, end: int, n': nat, end': int) {
    && n' == (if resets then 0 else if adds then n + 1 else n)
    && end' == (if resets then 0 else if adds && n + 1 >= limit then reopened else end)
  }

  /** One half of the score: a mint resets the count, adds to it or leaves it, and the breaker follows. */
  lemma ScoreMoves(h: seq<Mint>, m: Mint, counted: set<nat>, counted': set<nat>, limit: int, cooldown: int,
                   n: nat, end: int, n': nat, end': int, resets: bool, adds: bool)
    requires limit > 0 && Scores(h, counted, limit, cooldown, n, end) && forall i | i in counted :: i < |h|
    requires counted' == if resets then {} else if adds then counted + {|h|} else counted
    requires Moves(resets, adds, limit, m.at + cooldown, n, end, n', end')
    ensures Scores(h + [m], counted', limit, cooldown, n', end')
  {
    if resets {
    } else if adds {
      BreakerCounts(h, m, counted, limit, end, cooldown);
    } else {
      BreakerKept(h, m, counted, limit, end, cooldown);
    }
  }

  lemma ReactiveMoves(cfg: Config, s: State, s': State, h: seq<Mint>, m: Mint)
    requires cfg.Valid() && Scores(h, Futiles(h), cfg.k, cfg.cooldown, s.reactiveNoFlip, s.reactiveEnd)
    requires Moves(m.ok && m.flipped, Futile(m), cfg.k, m.at + cfg.cooldown,
                   s.reactiveNoFlip, s.reactiveEnd, s'.reactiveNoFlip, s'.reactiveEnd)
    ensures Scores(h + [m], Futiles(h + [m]), cfg.k, cfg.cooldown, s'.reactiveNoFlip, s'.reactiveEnd)
  {
    FutilesGrow(h, m);
    ScoreMoves(h, m, Futiles(h), Futiles(h + [m]), cfg.k, cfg.cooldown, s.reactiveNoFlip, s.reactiveEnd,
               s'.reactiveNoFlip, s'.reactiveEnd, m.ok && m.flipped, Futile(m));
  }

  lemma ProactiveMoves(cfg: Config, s: State, s': State, h: seq<Mint>, m: Mint)
    requires cfg.Valid() && Scores(h, Misses(h), cfg.j, cfg.cooldown, s.proactiveNoConverge, s.proactiveEnd)
    requires Moves(m.ok && m.kind.Proactive? && m.converged, Missed(m), cfg.j, m.at + cfg.cooldown,
                   s.proactiveNoConverge, s.proactiveEnd, s'.proactiveNoConverge, s'.proactiveEnd)
    ensures Scores(h + [m], Misses(h + [m]), cfg.j, cfg.cooldown, s'.proactiveNoConverge, s'.proactiveEnd)
  {
    MissesGrow(h, m);
    ScoreMoves(h, m, Misses(h), Misses(h + [m]), cfg.j, cfg.cooldown, s.proactiveNoConverge, s.proactiveEnd,
               s'.proactiveNoConverge, s'.proactiveEnd, m.ok && m.kind.Proactive? && m.converged, Missed(m));
  }

  lemma BackoffMoves(cfg: Config, h: seq<Mint>, m: Mint)
    requires cfg.Valid()
    ensures BackoffAfter(cfg, Failures(h + [m])) ==
            if m.ok then cfg.base else MinDur(BackoffAfter(cfg, Failures(h)) * 2, cfg.max)
  {
    assert (h + [m])[..|h|] == h;
    BackoffDoubles(cfg, Failures(h));
  }

  /** Scoring one mint keeps every counter, breaker and backoff what the history says. */
  lemma ScoreKeeps(cfg: Config, s: State, h: seq<Mint>, c: Captured, r: Outcome, now: nat)
    requires cfg.Valid() && ScoreInv(cfg, s, h) && c.backoff == s.backoff
    ensures var (s', slept) := Scored(cfg, s, c, r, now);
            ScoreInv(cfg, s', h + [Record(c, r, now, slept)])
  {
    var (s', slept) := Scored(cfg, s, c, r, now);
    var m := Record(c, r, now, slept);
    ReactiveMoves(cfg, s, s', h, m);
    ProactiveMoves(cfg, s, s', h, m);
    BackoffMoves(cfg, h, m);
  }

  lemma StepKeepsFlight(cfg: Config, w: World, step: Step)
    requires FlightInv(w) && Enabled(w, step)
    ensures FlightInv(Exec(cfg, w, step))
  {
    var w' := Exec(cfg, w, step);
    forall p | Live(w', p) && p in w.procs ensures Live(w, p) {}
    match step {
      case Ask(pid, kind, now) => assert Accepts(w.state, kind, now) ==> Live(w', pid);
      case Watch(pid, target, now) =>
        assert ObserveTriggers(w.state, target) && Accepts(w.state, Proactive, now) ==> Live(w', pid);
      case Begin(pid) => assert Live(w, pid) && Live(w', pid);
      case Finish(pid, _, _) => assert Live(w, pid) && Live(w', pid);
      case End(pid) =>
    }
    if p :| Live(w, p) && !step.End? {
      assert Live(w', p);
    }
  }

  lemma SleptWellAppends(cfg: Config, h: seq<Mint>, m: Mint)
    requires forall i | 0 <= i < |h| :: SleptWell(cfg, h, i)
    requires !m.ok ==> m.slept == ChooseSleep(BackoffAfter(cfg, Failures(h)), m.retryAfter)
    ensures forall i | 0 <= i < |h| + 1 :: SleptWell(cfg, h + [m], i)
  {
    var g := h + [m];
    forall i | 0 <= i < |g| ensures SleptWell(cfg, g, i) {
      assert g[..i] == h[..i] && h[..|h|] == h;
      assert i < |h| ==> SleptWell(cfg, h, i);
    }
  }

  lemma StepKeepsInv(cfg: Config, w: World, step: Step)
    requires cfg.Valid() && Inv(cfg, w) && Enabled(w, step)
    ensures Inv(cfg, Exec(cfg, w, step))
  {
    StepKeepsFlight(cfg, w, step);
    if step.Finish? {
      var c := w.procs[step.pid].captured;
      var (s, slept) := Scored(cfg, w.state, c, step.outcome, step.now);
      ScoreKeeps(cfg, w.state, w.history, c, step.outcome, step.now);
      SleptWellAppends(cfg, w.history, Record(c, step.outcome, step.now, slept));
    }
  }

  /**
   * In every run from a fresh coordinator: at most one mint goroutine is live and inFlight says whether one
   * is; the reactive counter is the number of futile reactive mints since the last flip, the proactive one
   * that of proactive mints since one last reached its target; each breaker stands exactly from its limit on,
   * a cooldown after the latest counted mint; failures touch only the backoff, which after n of them is
   * min(base * 2^n, max).
   */
  lemma {:induction false} CoordinatorFollowsHistory(config: Config, held: Leaf, steps: seq<Step>)
    requires Legal(Defaulted(config), Boot(Defaulted(config), held), steps)
    ensures Inv(Defaulted(config), Run(Defaulted(config), Boot(Defaulted(config), held), steps))
  {
    var cfg := Defaulted(config);
    if steps == [] {
      assert Futiles([]) == {} && Misses([]) == {};
    } else {
      var n := |steps| - 1;
      CoordinatorFollowsHistory(config, held, steps[..n]);
      StepKeepsInv(cfg, Run(cfg, Boot(cfg, held), steps[..n]), steps[n]);
    }
  }

  /**
   * In every run the coordinator's backoff is min(base * 2^n, max), for the n mints in a row that have failed
   * at the end of its history, and so within max, if and only if some have failed or base is within max.
   */
  lemma BackoffIsCappedDoubling(config: Config, held: Leaf, steps: seq<Step>)
    requires Legal(Defaulted(config), Boot(Defaulted(config), held), steps)
    ensures var cfg := Defaulted(config);
            var w := Run(cfg, Boot(cfg, held), steps);
            var n := Failures(w.history);
            && (w.state.backoff == MinDur(cfg.base * Pow2(n), cfg.max) <==> n > 0 || cfg.base <= cfg.max)
            && (w.state.backoff <= cfg.max <==> n > 0 || cfg.base <= cfg.max)
            && (n == 0 ==> w.state.backoff == cfg.base)
  {
    CoordinatorFollowsHistory(config, held, steps);
    var cfg := Defaulted(config);
    assert cfg.base * Pow2(0) == cfg.base;
  }

  /** Each failed mint sleeps at least the backoff in force and at least what Retry-After asked. */
  lemma FailureSleeps(config: Config, held: Leaf, steps: seq<Step>, i: nat)
    requires Legal(Defaulted(config), Boot(Defaulted(config), held), steps)
    requires i < |Run(Defaulted(config), Boot(Defaulted(config), held), steps).history|
    requires !Run(Defaulted(config), Boot(Defaulted(config), held), steps).history[i].ok
    ensures var cfg := Defaulted(config);
            var h := Run(cfg, Boot(cfg, held), steps).history;
            h[i].slept >= BackoffAfter(cfg, Failures(h[..i])) && h[i].slept >= h[i].retryAfter && h[i].slept > 0
  {
    CoordinatorFollowsHistory(config, held, steps);
    var cfg := Defaulted(config);
    var h := Run(cfg, Boot(cfg, held), steps).history;
    assert SleptWell(cfg, h, i);
    BackoffIsPositive(cfg, Failures(h[..i]));
  }

  lemma BackoffIsPositive(cfg: Config, n: nat)
    requires cfg.Valid()
    ensures BackoffAfter(cfg, n) > 0
  {
    assert cfg.base * Pow2(n) > 0 by {
      PositiveProduct(cfg.base, Pow2(n));
    }
  }

  lemma PositiveProduct(a: int, b: int)
    requires a > 0 && b > 0
    ensures a * b > 0
  {
  }

  /** A trigger starts a mint exactly when none is live and no cooldown of its own breaker is running. */
  lemma TriggerStartsIff(config: Config, held: Leaf, steps: seq<Step>, kind: Kind, now: nat)
    requires Legal(Defaulted(config), Boot(Defaulted(config), held), steps)
    ensures var cfg := Defaulted(config);
            var w := Run(cfg, Boot(cfg, held), steps);
            var h := w.history;
            Accepts(w.state, kind, now) <==>
              && (forall p :: !Live(w, p))
              && (kind.Reactive? ==> !CoolingDown(h, Futiles(h), cfg.k, cfg.cooldown, now))
              && (kind.Proactive? ==> !CoolingDown(h, Misses(h), cfg.j, cfg.cooldown, now))
  {
    CoordinatorFollowsHistory(config, held, steps);
    var cfg := Defaulted(config);
    var w := Run(cfg, Boot(cfg, held), steps);
    CoolingDownIff(w.history, Futiles(w.history), cfg.k, w.state.reactiveEnd, cfg.cooldown, now);
    CoolingDownIff(w.history, Misses(w.history), cfg.j, w.state.proactiveEnd, cfg.cooldown, now);
  }

  /** The limit is reached, and some counted mint with none counted after it is less than a cooldown old. */
  ghost predicate CoolingDown(h: seq<Mint>, counted: set<nat>, limit: int, cooldown: int, now: nat) {
    |counted| >= limit &&
    exists last | last in counted && last < |h| :: OpenedAt(h, counted, last, h[last].at + cooldown, cooldown) &&
                                                    now < h[last].at + cooldown
  }

  lemma CoolingDownIff(h: seq<Mint>, counted: set<nat>, limit: int, end: int, cooldown: int, now: nat)
    requires Breaker(h, counted, limit, end, cooldown)
    ensures now < end <==> CoolingDown(h, counted, limit, cooldown, now)
  {
    if |counted| >= limit {
      var last :| last in counted && last < |h| && OpenedAt(h, counted, last, end, cooldown);
      assert OpenedAt(h, counted, last, h[last].at + cooldown, cooldown);
      forall k | k in counted && k < |h| && OpenedAt(h, counted, k, h[k].at + cooldown, cooldown)
        ensures k == last
      {
        assert k <= last && last <= k;
      }
    }
  }

  /**
   * Observation and scoring agree: with a known held leaf, an observed target is left alone exactly when
   * minting that leaf would count as reaching it, or only the held fingerprint is unknown.
   */
  lemma ObserveRestsIff(s: State, target: Leaf)
    requires target.caId != "" && s.held.caId != ""
    ensures !ObserveTriggers(s, target) <==>
            Converged(target, s.held) || (s.held.caId == target.caId && s.held.fp == "")
  {
  }
}
