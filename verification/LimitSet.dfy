/** Swapping a batch of rate limits while their live counters carry over (ratelimitrule/limiter.go). */
module LimitSet {
  import opened Outcomes
  import opened KeyEncoding

  const SECOND: int := 1_000_000_000
  const MIN_WINDOW: int := SECOND
  const MAX_WINDOW: int := 3600 * SECOND
  const MAX_ID_LEN: nat := 63
  const DEFAULT_STATUS: int := 429
  const DEFAULT_MESSAGE := "Too Many Requests"

  datatype Limit = Limit(
    id: string, keys: seq<string>, rate: int, window: string, algorithm: string, mode: string,
    status: int, message: string, exclude: seq<string>, filter: string)

  /** What libraries decide about strings, and which resolvers are wired. */
  datatype Env = Env(
    hasASN: bool, hasCountry: bool, trim: string -> string,
    parseDuration: string -> Option<int>, showDuration: int -> string,
    cidrParses: string -> bool, filterCompiles: string -> bool)

  /** Durations print without '|', each one differently. */
  ghost predicate Printable(env: Env) {
    && (forall d :: Free(env.showDuration(d), '|'))
    && (forall d, e :: env.showDuration(d) == env.showDuration(e) ==> d == e)
  }

  /** A limit ready for the request path, but for its strategy. */
  datatype Config = Config(
    id: string, shape: Shape, size: int, shadow: bool, status: int, message: string,
    exclude: seq<string>, filter: string, cfgKey: string)

  predicate ValidId(id: string) {
    && 0 < |id| <= MAX_ID_LEN
    && forall i | 0 <= i < |id| ::
         'a' <= id[i] <= 'z' || 'A' <= id[i] <= 'Z' || '0' <= id[i] <= '9' || id[i] in "-_."
  }

  function Window(env: Env, lim: Limit): Option<int> {
    if env.trim(lim.window) == "" then None
    else
      match env.parseDuration(lim.window)
      case None => None
      case Some(d) => if MIN_WINDOW <= d <= MAX_WINDOW then Some(d) else None
  }

  predicate Compiles(env: Env, lim: Limit) {
    && ValidId(lim.id)
    && CompiledKeys(lim.keys, env.hasASN, env.hasCountry).Some?
    && lim.rate > 0
    && Window(env, lim).Some?
    && (lim.algorithm == "" || lim.algorithm == "fixed" || lim.algorithm == "sliding")
    && (lim.mode == "" || lim.mode == "enforce" || lim.mode == "shadow")
    && (lim.status == 0 || lim.status == 429 || lim.status == 503)
    && (forall i | 0 <= i < |lim.exclude| :: env.cidrParses(env.trim(lim.exclude[i])))
    && (env.trim(lim.filter) != "" ==> env.filterCompiles(env.trim(lim.filter)))
  }

  function CompileLimit(env: Env, lim: Limit): Option<Config> {
    if !Compiles(env, lim) then None
    else
      var d := Window(env, lim).value;
      var shape := Shape(CompiledKeys(lim.keys, env.hasASN, env.hasCountry).value,
                         if lim.algorithm == "" then "fixed" else lim.algorithm, lim.rate, env.showDuration(d));
      Some(Config(lim.id, shape, d, lim.mode == "shadow",
                  if lim.status == 0 then DEFAULT_STATUS else lim.status,
                  if lim.message == "" then DEFAULT_MESSAGE else lim.message,
                  lim.exclude, env.trim(lim.filter), CfgKey(shape)))
  }

  /** A batch as compiled position by position; None is a limit with an error. */
  type Batch = seq<Option<Config>>

  function CompileEach(env: Env, limits: seq<Limit>): Batch {
    seq(|limits|, i requires 0 <= i < |limits| => CompileLimit(env, limits[i]))
  }

  /** A strategy object: its identity, which its counters hang on, and what it was created with. */
  datatype Strategy = Strategy(ident: nat, algorithm: string, rate: nat, size: int)

  datatype Live = Live(config: Config, strategy: Strategy)

  function NewStrategy(c: Config, ident: nat): Strategy {
    Strategy(ident, c.shape.algorithm, c.shape.rate, c.size)
  }

  /** Every limit compiles and no id comes twice. */
  predicate Acceptable(b: Batch) {
    && (forall i | 0 <= i < |b| :: b[i].Some?)
    && (forall i, j | 0 <= i < j < |b| :: b[i].value.id != b[j].value.id)
  }

  function Find(lives: seq<Live>, id: string): Option<Live> {
    if lives == [] then None
    else if lives[|lives| - 1].config.id == id then Some(lives[|lives| - 1])
    else Find(lives[..|lives| - 1], id)
  }

  /** A limit takes over the strategy of the live one with its id, if that was shaped alike. */
  function CarryOne(lives: seq<Live>, c: Config, ident: nat): Live {
    var o := Find(lives, c.id);
    if o.Some? && o.value.config.cfgKey == c.cfgKey then Live(c, o.value.strategy) else Live(c, NewStrategy(c, ident))
  }

  function Carry(lives: seq<Live>, b: Batch, next: nat): seq<Live>
    requires Acceptable(b)
  {
    seq(|b|, i requires 0 <= i < |b| => CarryOne(lives, b[i].value, next + i))
  }

  /** The live set (empty before the first batch) and the identity of the next strategy object. */
  datatype State = State(lives: seq<Live>, next: nat)

  const Empty := State([], 0)

  function Applied(s: State, b: Batch): State {
    State(if Acceptable(b) then Carry(s.lives, b, s.next) else s.lives, s.next + |b|)
  }

  class Limiter {
    const env: Env
    var lives: seq<Live>
    var next: nat

    ghost function View(): State
      reads this
    {
      State(lives, next)
    }

    /** Every live limit uses a strategy made for its own shape. */
    ghost predicate Valid()
      reads this
    {
      Printable(env) ==> Inv(env, View())
    }

    constructor (env: Env)
      ensures Valid() && this.env == env && View() == Empty
    {
      this.env, lives, next := env, [], 0;
    }

    /** All or nothing; a position in the batch that does not compile leaves its strategy number unused. */
    method SetLimits(limits: seq<Limit>) returns (ok: bool)
      requires Valid()
      modifies this
      ensures Valid()
      ensures ok <==> AllWellWritten(env, limits)
      ensures !ok ==> lives == old(lives)
      ensures ok ==> AsWritten(env, limits, lives)
      ensures ok && Printable(env) ==> AsEnforced(env, limits, lives)
      ensures View() == old(Applied(View(), CompileEach(env, limits)))
      ensures ok == Acceptable(CompileEach(env, limits))
    {
      ghost var before := View();
      SetIsAsWritten(env, before, limits);
      var compiled;
      ok, compiled := CollectBatch(CompileEach(env, limits), next);
      if ok {
        lives := CarryOver(lives, compiled, CompileEach(env, limits), next);
      }
      next := next + |limits|;
    }
  }

  ghost function Ids(b: Batch): set<string> {
    set i | 0 <= i < |b| && b[i].Some? :: b[i].value.id
  }

  ghost predicate Brand(lives: seq<Live>, b: Batch, next: nat) {
    && |lives| == |b|
    && forall i | 0 <= i < |b| ::
         b[i].Some? && lives[i].config == b[i].value && lives[i].strategy == NewStrategy(b[i].value, next + i)
  }

  lemma AcceptableStep(b: Batch, c: Option<Config>)
    ensures Acceptable(b + [c]) <==> Acceptable(b) && c.Some? && c.value.id !in Ids(b)
    ensures Ids(b + [c]) == Ids(b) + if c.Some? then {c.value.id} else {}
  {
    var more := b + [c];
    forall k | 0 <= k < |b| ensures more[k] == b[k] {}
    assert more[|b|] == c;
  }

  /** Collect the compiled limits, each with a brand-new strategy; one error or duplicate id spoils the batch. */
  method CollectBatch(b: Batch, next: nat) returns (ok: bool, compiled: seq<Live>)
    ensures ok == Acceptable(b)
    ensures ok ==> Brand(compiled, b, next)
  {
    var seen: set<string> := {};
    compiled, ok := [], true;
    for i := 0 to |b|
      invariant ok == Acceptable(b[..i])
      invariant ok ==> Brand(compiled, b[..i], next) && seen == Ids(b[..i])
    {
      var c := b[i];
      AcceptableStep(b[..i], c);
      assert b[..i + 1] == b[..i] + [c];
      if c.None? || c.value.id in seen {
        ok := false;
      } else {
        seen := seen + {c.value.id};
        compiled := compiled + [Live(c.value, NewStrategy(c.value, next + i))];
      }
    }
    assert b[..|b|] == b;
  }

  method CarryOver(lives: seq<Live>, compiled: seq<Live>, ghost b: Batch, ghost next: nat) returns (carried: seq<Live>)
    requires Acceptable(b) && Brand(compiled, b, next)
    ensures carried == Carry(lives, b, next)
  {
    var byId: map<string, Live> := map[];
    for i := 0 to |lives|
      invariant forall id :: id in byId <==> Find(lives[..i], id).Some?
      invariant forall id | id in byId :: Find(lives[..i], id) == Some(byId[id])
    {
      assert lives[..i + 1][..i] == lives[..i];
      byId := byId[lives[i].config.id := lives[i]];
    }
    assert lives[..|lives|] == lives;
    carried := [];
    for i := 0 to |compiled|
      invariant |carried| == i
      invariant forall k | 0 <= k < i :: carried[k] == CarryOne(lives, b[k].value, next + k)
    {
      var c := compiled[i];
      var id := c.config.id;
      if id in byId && byId[id].config.cfgKey == c.config.cfgKey {
        c := c.(strategy := byId[id].strategy);
      }
      carried := carried + [c];
    }
  }

  // What a limit is written to be.

  /** A limit as the operator may write it. */
  predicate WellWritten(env: Env, lim: Limit) {
    var asked := AskedParts(if lim.keys == [] then ["ip"] else lim.keys, env.hasASN, env.hasCountry);
    && 1 <= |lim.id| <= 63
    && (forall c | c in lim.id :: c in "-_." || 'a' <= c <= 'z' || 'A' <= c <= 'Z' || '0' <= c <= '9')
    && asked.Some? && Distinct(Norms(asked.value))
    && lim.rate >= 1
    && env.trim(lim.window) != "" && env.parseDuration(lim.window).Some?
    && 1_000_000_000 <= env.parseDuration(lim.window).value <= 3_600_000_000_000
    && lim.algorithm in {"", "fixed", "sliding"} && lim.mode in {"", "enforce", "shadow"} && lim.status in {0, 429, 503}
    && (forall cidr | cidr in lim.exclude :: env.cidrParses(env.trim(cidr)))
    && (env.trim(lim.filter) == "" || env.filterCompiles(env.trim(lim.filter)))
  }

  ghost predicate AllWellWritten(env: Env, limits: seq<Limit>) {
    && (forall i | 0 <= i < |limits| :: WellWritten(env, limits[i]))
    && (forall i, j | 0 <= i < j < |limits| :: limits[i].id != limits[j].id)
  }

  /** The configuration is that of the limit, defaults filled in. */
  predicate Written(env: Env, lim: Limit, c: Config) {
    && c.id == lim.id
    && AskedParts(if lim.keys == [] then ["ip"] else lim.keys, env.hasASN, env.hasCountry) == Some(c.shape.parts)
    && c.shape.rate == lim.rate && env.parseDuration(lim.window) == Some(c.size)
    && c.shape.algorithm == (if lim.algorithm == "sliding" then "sliding" else "fixed")
    && (c.shadow <==> lim.mode == "shadow")
    && c.status == (if lim.status == 503 then 503 else 429)
    && c.message == (if lim.message == "" then "Too Many Requests" else lim.message)
    && c.exclude == lim.exclude && c.filter == env.trim(lim.filter)
  }

  /** The strategy counts by the written rate, window and algorithm. */
  predicate Enforced(env: Env, lim: Limit, strategy: Strategy) {
    && strategy.rate == lim.rate && env.parseDuration(lim.window) == Some(strategy.size)
    && strategy.algorithm == (if lim.algorithm == "sliding" then "sliding" else "fixed")
  }

  lemma SameChecks(env: Env, lim: Limit)
    ensures ValidId(lim.id) <==>
            && 1 <= |lim.id| <= 63
            && forall c | c in lim.id :: c in "-_." || 'a' <= c <= 'z' || 'A' <= c <= 'Z' || '0' <= c <= '9'
    ensures (forall i | 0 <= i < |lim.exclude| :: env.cidrParses(env.trim(lim.exclude[i]))) <==>
            (forall cidr | cidr in lim.exclude :: env.cidrParses(env.trim(cidr)))
  {
  }

  /** Exactly which limits compile, and into what. */
  lemma LimitCompilesIff(env: Env, lim: Limit)
    ensures CompileLimit(env, lim).Some? <==> WellWritten(env, lim)
    ensures CompileLimit(env, lim).Some? ==> Written(env, lim, CompileLimit(env, lim).value)
  {
    KeysCompileIff(lim.keys, env.hasASN, env.hasCountry);
    SameChecks(env, lim);
  }

  lemma BatchIsAcceptedIff(env: Env, limits: seq<Limit>)
    ensures Acceptable(CompileEach(env, limits)) <==> AllWellWritten(env, limits)
  {
    var b := CompileEach(env, limits);
    forall i | 0 <= i < |limits|
      ensures (b[i].Some? <==> WellWritten(env, limits[i])) && (b[i].Some? ==> b[i].value.id == limits[i].id)
    {
      LimitCompilesIff(env, limits[i]);
    }
  }

  /** Limit by limit, the live set is what is written. */
  predicate AsWritten(env: Env, limits: seq<Limit>, lives: seq<Live>) {
    && |lives| == |limits|
    && forall i | 0 <= i < |limits| :: Written(env, limits[i], lives[i].config)
  }

  predicate AsEnforced(env: Env, limits: seq<Limit>, lives: seq<Live>) {
    && |lives| == |limits|
    && forall i | 0 <= i < |limits| :: Enforced(env, limits[i], lives[i].strategy)
  }

  lemma SoundIsEnforced(env: Env, limits: seq<Limit>, s: State)
    requires Inv(env, s) && AsWritten(env, limits, s.lives)
    ensures AsEnforced(env, limits, s.lives)
  {
    forall i | 0 <= i < |limits| ensures Enforced(env, limits[i], s.lives[i].strategy) {
      assert Sound(env, s.lives[i], s.next) && Written(env, limits[i], s.lives[i].config);
    }
  }

  lemma CarriedIsWritten(env: Env, lives: seq<Live>, lim: Limit, ident: nat)
    requires CompileLimit(env, lim).Some?
    ensures Written(env, lim, CarryOne(lives, CompileLimit(env, lim).value, ident).config)
  {
    LimitCompilesIff(env, lim);
  }

  lemma CarriedAt(lives: seq<Live>, b: Batch, next: nat, i: nat)
    requires Acceptable(b) && i < |b|
    ensures b[i].Some? && |Carry(lives, b, next)| == |b|
    ensures Carry(lives, b, next)[i] == CarryOne(lives, b[i].value, next + i)
  {
  }

  lemma CarriedLimitIsWritten(env: Env, lives: seq<Live>, limits: seq<Limit>, next: nat, i: nat)
    requires Acceptable(CompileEach(env, limits)) && i < |limits|
    ensures |Carry(lives, CompileEach(env, limits), next)| == |limits|
    ensures Written(env, limits[i], Carry(lives, CompileEach(env, limits), next)[i].config)
  {
    CarriedAt(lives, CompileEach(env, limits), next, i);
    CarriedIsWritten(env, lives, limits[i], next + i);
  }

  lemma CarriedBatchIsWritten(env: Env, lives: seq<Live>, limits: seq<Limit>, next: nat)
    requires Acceptable(CompileEach(env, limits))
    ensures AsWritten(env, limits, Carry(lives, CompileEach(env, limits), next))
  {
    var carried := Carry(lives, CompileEach(env, limits), next);
    assert |carried| == |limits|;
    forall i | 0 <= i < |limits| ensures Written(env, limits[i], carried[i].config) {
      CarriedLimitIsWritten(env, lives, limits, next, i);
    }
  }

  lemma AppliedIsWritten(env: Env, s: State, limits: seq<Limit>)
    requires AllWellWritten(env, limits)
    ensures Acceptable(CompileEach(env, limits))
    ensures AsWritten(env, limits, Applied(s, CompileEach(env, limits)).lives)
  {
    BatchIsAcceptedIff(env, limits);
    CarriedBatchIsWritten(env, s.lives, limits, s.next);
  }

  /** A batch is applied if and only if it is well written, and then enforces what is written, limit by limit. */
  lemma SetIsAsWritten(env: Env, s: State, limits: seq<Limit>)
    ensures var b := CompileEach(env, limits);
            var s' := Applied(s, b);
            && (Acceptable(b) <==> AllWellWritten(env, limits))
            && (!Acceptable(b) ==> s'.lives == s.lives)
            && (Acceptable(b) ==> AsWritten(env, limits, s'.lives))
            && (Printable(env) && Inv(env, s) ==> Inv(env, s'))
            && (Printable(env) && Inv(env, s) && Acceptable(b) ==> AsEnforced(env, limits, s'.lives))
  {
    var b := CompileEach(env, limits);
    BatchIsAcceptedIff(env, limits);
    if Acceptable(b) {
      AppliedIsWritten(env, s, limits);
    }
    if Printable(env) && Inv(env, s) {
      CompileIsSound(env, limits);
      ApplyKeepsInv(env, s, b);
      if Acceptable(b) {
        SoundIsEnforced(env, limits, Applied(s, b));
      }
    }
  }

  /**
   * After any batches at all, the live limits are those of the last batch that was well written, in its order, each
   * with its written keys, mode, status, message, excludes and filter, and enforcing its written rate and window.
   */
  lemma LiveSetIsAsWritten(env: Env, batches: seq<seq<Limit>>, k: nat)
    requires Printable(env) && k < |batches| && AllWellWritten(env, batches[k])
    requires forall q | k < q < |batches| :: !AllWellWritten(env, batches[q])
    ensures var lives := After(CompileHistory(env, batches)).lives;
            AsWritten(env, batches[k], lives) && AsEnforced(env, batches[k], lives)
  {
    LastWellWrittenIsLive(env, batches, k);
    HistoryIsSound(env, batches);
    AfterInv(env, CompileHistory(env, batches));
    SoundIsEnforced(env, batches[k], After(CompileHistory(env, batches)));
  }

  lemma {:induction false} LastWellWrittenIsLive(env: Env, batches: seq<seq<Limit>>, k: nat)
    requires k < |batches| && AllWellWritten(env, batches[k])
    requires forall q | k < q < |batches| :: !AllWellWritten(env, batches[q])
    ensures AsWritten(env, batches[k], After(CompileHistory(env, batches)).lives)
  {
    var n := |batches| - 1;
    var history := CompileHistory(env, batches);
    assert history[..n] == CompileHistory(env, batches[..n]) && history[n] == CompileEach(env, batches[n]);
    if k == n {
      AppliedIsWritten(env, After(history[..n]), batches[n]);
    } else {
      assert forall q | 0 <= q < n :: batches[..n][q] == batches[q];
      LastWellWrittenIsLive(env, batches[..n], k);
      BatchIsAcceptedIff(env, batches[n]);
    }
  }

  // What the live set means.

  predicate DistinctIds(lives: seq<Live>) {
    forall i, j | 0 <= i < j < |lives| :: lives[i].config.id != lives[j].config.id
  }

  ghost predicate SoundConfig(env: Env, c: Config) {
    && c.shape.Valid() && c.cfgKey == CfgKey(c.shape) && c.shape.window == env.showDuration(c.size)
    && c.shape.rate > 0 && MIN_WINDOW <= c.size <= MAX_WINDOW
  }

  /** The strategy a limit uses was created with the limit's own algorithm, rate and window. */
  ghost predicate Sound(env: Env, l: Live, next: nat) {
    SoundConfig(env, l.config) && l.strategy == NewStrategy(l.config, l.strategy.ident) && l.strategy.ident < next
  }

  ghost predicate Inv(env: Env, s: State) {
    DistinctIds(s.lives) && forall i | 0 <= i < |s.lives| :: Sound(env, s.lives[i], s.next)
  }

  ghost predicate SoundBatch(env: Env, b: Batch) {
    forall i | 0 <= i < |b| :: b[i].Some? ==> SoundConfig(env, b[i].value)
  }

  lemma LimitIsSound(env: Env, lim: Limit)
    requires Printable(env) && CompileLimit(env, lim).Some?
    ensures SoundConfig(env, CompileLimit(env, lim).value)
  {
    CompiledKeysAreDistinct(lim.keys, env.hasASN, env.hasCountry);
  }

  lemma CompileIsSound(env: Env, limits: seq<Limit>)
    requires Printable(env)
    ensures SoundBatch(env, CompileEach(env, limits))
  {
    forall i | 0 <= i < |limits| && CompileLimit(env, limits[i]).Some?
      ensures SoundConfig(env, CompileLimit(env, limits[i]).value)
    {
      LimitIsSound(env, limits[i]);
    }
  }

  lemma {:induction false} FindIsTheOne(lives: seq<Live>, i: nat)
    requires DistinctIds(lives) && i < |lives|
    ensures Find(lives, lives[i].config.id) == Some(lives[i])
  {
    var n := |lives| - 1;
    if i < n {
      assert lives[..n][i] == lives[i];
      FindIsTheOne(lives[..n], i);
    }
  }

  lemma {:induction false} FindFinds(lives: seq<Live>, id: string)
    ensures Find(lives, id).Some? ==> Find(lives, id).value in lives && Find(lives, id).value.config.id == id
  {
    if lives != [] {
      FindFinds(lives[..|lives| - 1], id);
    }
  }

  lemma CarryIsSound(env: Env, s: State, c: Config, ident: nat, next: nat)
    requires Printable(env) && Inv(env, s) && SoundConfig(env, c) && s.next <= next && ident < next
    ensures Sound(env, CarryOne(s.lives, c, ident), next)
  {
    FindFinds(s.lives, c.id);
    var o := Find(s.lives, c.id);
    if o.Some? && o.value.config.cfgKey == c.cfgKey {
      assert Sound(env, o.value, s.next);
      CfgKeyIsInjective(o.value.config.shape, c.shape);
    }
  }

  /** Whatever batches are applied, every live limit's strategy was created for that limit's own shape. */
  lemma ApplyKeepsInv(env: Env, s: State, b: Batch)
    requires Printable(env) && Inv(env, s) && SoundBatch(env, b)
    ensures Inv(env, Applied(s, b))
  {
    var s' := Applied(s, b);
    ApplyKeepsDistinct(s, b);
    forall i | 0 <= i < |s'.lives| ensures Sound(env, s'.lives[i], s'.next) {
      if Acceptable(b) {
        CarryIsSound(env, s, b[i].value, s.next + i, s'.next);
      } else {
        assert Sound(env, s.lives[i], s.next);
      }
    }
  }

  lemma ApplyKeepsDistinct(s: State, b: Batch)
    requires DistinctIds(s.lives)
    ensures DistinctIds(Applied(s, b).lives)
  {
  }

  lemma {:induction false} AfterIsDistinct(history: seq<Batch>)
    ensures DistinctIds(After(history).lives)
  {
    if history != [] {
      AfterIsDistinct(history[..|history| - 1]);
    }
  }

  /** The history of one limiter: every batch it was ever given, compiled. */
  function After(history: seq<Batch>): State {
    if history == [] then Empty else Applied(After(history[..|history| - 1]), history[|history| - 1])
  }

  ghost predicate SoundHistory(env: Env, history: seq<Batch>) {
    Printable(env) && forall k | 0 <= k < |history| :: SoundBatch(env, history[k])
  }

  function CompileHistory(env: Env, batches: seq<seq<Limit>>): seq<Batch> {
    seq(|batches|, k requires 0 <= k < |batches| => CompileEach(env, batches[k]))
  }

  lemma HistoryIsSound(env: Env, batches: seq<seq<Limit>>)
    requires Printable(env)
    ensures SoundHistory(env, CompileHistory(env, batches))
  {
    forall k | 0 <= k < |batches| ensures SoundBatch(env, CompileHistory(env, batches)[k]) {
      CompileIsSound(env, batches[k]);
    }
  }

  lemma {:induction false} AfterInv(env: Env, history: seq<Batch>)
    requires SoundHistory(env, history)
    ensures Inv(env, After(history))
  {
    if history != [] {
      AfterInv(env, history[..|history| - 1]);
      ApplyKeepsInv(env, After(history[..|history| - 1]), history[|history| - 1]);
    }
  }

  /**
   * After any batches at all, every live limit uses a strategy made for its own algorithm, rate and window,
   * which admits something and retains keys for an hour at most.
   */
  lemma LiveStrategiesFit(env: Env, batches: seq<seq<Limit>>, l: Live)
    requires Printable(env) && l in After(CompileHistory(env, batches)).lives
    ensures l.strategy.algorithm == l.config.shape.algorithm && l.strategy.rate == l.config.shape.rate
    ensures l.strategy.size == l.config.size && l.config.shape.window == env.showDuration(l.strategy.size)
    ensures l.strategy.rate > 0 && MIN_WINDOW <= l.strategy.size <= MAX_WINDOW
  {
    HistoryIsSound(env, batches);
    AfterInv(env, CompileHistory(env, batches));
    var s := After(CompileHistory(env, batches));
    var at :| 0 <= at < |s.lives| && s.lives[at] == l;
    assert Sound(env, s.lives[at], s.next);
  }

  /** Before batch k, the id was not live with this configuration key. */
  predicate NewAt(history: seq<Batch>, k: nat, id: string, cfgKey: string)
    requires k <= |history|
  {
    var o := Find(After(history[..k]).lives, id);
    o.None? || o.value.config.cfgKey != cfgKey
  }

  /** After k batches, the id is live with this configuration key and this strategy. */
  predicate LiveWith(history: seq<Batch>, k: nat, id: string, cfgKey: string, strategy: Strategy)
    requires k <= |history|
  {
    var o := Find(After(history[..k]).lives, id);
    o.Some? && o.value.config.cfgKey == cfgKey && o.value.strategy == strategy
  }

  /** Batch k was accepted, brought the id in or reshaped it, and created this strategy for it. */
  ghost predicate Created(history: seq<Batch>, k: nat, id: string, cfgKey: string, strategy: Strategy)
    requires k < |history|
  {
    && Acceptable(history[k]) && NewAt(history, k, id, cfgKey)
    && exists p | 0 <= p < |history[k]| :: CreatedAt(history[k], p, After(history[..k]).next, id, strategy)
  }

  predicate CreatedAt(b: Batch, p: nat, next: nat, id: string, strategy: Strategy)
    requires p < |b|
  {
    b[p].Some? && b[p].value.id == id && strategy == NewStrategy(b[p].value, next + p)
  }

  /** Where one batch leaves a live limit's strategy from: created by this batch, or live before it. */
  lemma StrategyStep(s: State, b: Batch, l: Live)
    requires DistinctIds(s.lives) && l in Applied(s, b).lives
    ensures var o := Find(s.lives, l.config.id);
            if Acceptable(b) && (o.None? || o.value.config.cfgKey != l.config.cfgKey) then
              exists p | 0 <= p < |b| :: CreatedAt(b, p, s.next, l.config.id, l.strategy)
            else o.Some? && o.value.config.cfgKey == l.config.cfgKey && o.value.strategy == l.strategy
                 && o.value.config.id == l.config.id && o.value in s.lives
    ensures Find(Applied(s, b).lives, l.config.id) == Some(l)
  {
    var lives := Applied(s, b).lives;
    var at :| 0 <= at < |lives| && lives[at] == l;
    FindIsTheOne(lives, at);
    FindFinds(s.lives, l.config.id);
    if Acceptable(b) && NewStrategy(b[at].value, s.next + at) == l.strategy {
      assert CreatedAt(b, at, s.next, l.config.id, l.strategy);
    }
  }

  /**
   * Counter carry-over: over any sequence of batches, accepted or rejected, a live limit uses exactly the
   * strategy object created by the last batch in which its id appeared new or with another configuration
   * key, and has been live with it ever since.
   */
  lemma StrategyIsFromLastReshape(env: Env, batches: seq<seq<Limit>>, l: Live) returns (k: nat)
    requires l in After(CompileHistory(env, batches)).lives
    ensures var history := CompileHistory(env, batches);
            && k < |history| && Created(history, k, l.config.id, l.config.cfgKey, l.strategy)
            && forall j | k < j <= |history| :: LiveWith(history, j, l.config.id, l.config.cfgKey, l.strategy)
  {
    k := StrategyOrigin(CompileHistory(env, batches), l);
  }

  /** What held of a history's prefix holds of the history. */
  lemma LiveStays(history: seq<Batch>, n: nat, k: nat, id: string, cfgKey: string, strategy: Strategy)
    requires k <= n <= |history|
    ensures LiveWith(history[..n], k, id, cfgKey, strategy) <==> LiveWith(history, k, id, cfgKey, strategy)
  {
    assert history[..n][..k] == history[..k];
  }

  lemma CreatedStays(history: seq<Batch>, n: nat, k: nat, id: string, cfgKey: string, strategy: Strategy)
    requires k < n <= |history| && Created(history[..n], k, id, cfgKey, strategy)
    ensures Created(history, k, id, cfgKey, strategy)
  {
    assert history[..n][..k] == history[..k] && history[..n][k] == history[k];
  }

  /** The last batch created the strategy of a live limit, or it was live before it with the same one. */
  lemma LastStep(history: seq<Batch>, l: Live) returns (before: Option<Live>)
    requires l in After(history).lives
    ensures history != [] && LiveWith(history, |history|, l.config.id, l.config.cfgKey, l.strategy)
    ensures before.None? ==> Created(history, |history| - 1, l.config.id, l.config.cfgKey, l.strategy)
    ensures before.Some? ==>
              && before.value in After(history[..|history| - 1]).lives && before.value.strategy == l.strategy
              && before.value.config.id == l.config.id && before.value.config.cfgKey == l.config.cfgKey
  {
    assert history == [] ==> After(history).lives == [];
    var n := |history| - 1;
    var s := After(history[..n]);
    AfterIsDistinct(history[..n]);
    StrategyStep(s, history[n], l);
    assert history[..n + 1] == history;
    before := if Acceptable(history[n]) && NewAt(history, n, l.config.id, l.config.cfgKey) then None
              else Find(s.lives, l.config.id);
  }

  lemma {:induction false} StrategyOrigin(history: seq<Batch>, l: Live) returns (k: nat)
    requires l in After(history).lives
    ensures k < |history| && Created(history, k, l.config.id, l.config.cfgKey, l.strategy)
    ensures forall j | k < j <= |history| :: LiveWith(history, j, l.config.id, l.config.cfgKey, l.strategy)
    decreases |history|
  {
    var id, key := l.config.id, l.config.cfgKey;
    var before := LastStep(history, l);
    var n := |history| - 1;
    if before.None? {
      k := n;
    } else {
      k := StrategyOrigin(history[..n], before.value);
      CreatedStays(history, n, k, id, key, l.strategy);
      forall j | k < j <= n ensures LiveWith(history, j, id, key, l.strategy) {
        LiveStays(history, n, j, id, key, l.strategy);
      }
    }
  }

  lemma CarryIsDistinct(lives: seq<Live>, b: Batch, next: nat)
    requires Acceptable(b)
    ensures DistinctIds(Carry(lives, b, next))
  {
  }

  lemma CarriedAgain(carried: seq<Live>, c: Config, i: nat, ident: nat)
    requires DistinctIds(carried) && i < |carried| && carried[i].config == c
    ensures CarryOne(carried, c, ident) == carried[i]
  {
    FindIsTheOne(carried, i);
  }

  /**
   * Applying an accepted batch again is the identity on the live set, strategies and so counters included,
   * however many strategy objects were created in between.
   */
  lemma ReapplyIsIdentity(s: State, b: Batch, again: nat)
    requires Acceptable(b)
    ensures Carry(Applied(s, b).lives, b, again) == Applied(s, b).lives
  {
    var carried := Applied(s, b).lives;
    CarryIsDistinct(s.lives, b, s.next);
    forall i | 0 <= i < |b| ensures CarryOne(carried, b[i].value, again + i) == carried[i] {
      CarriedAgain(carried, b[i].value, i, again + i);
    }
  }

  /** A strategy made for another key is a new one; one carried over is the same. */
  lemma CarriedIff(lives: seq<Live>, l: Live, c: Config, ident: nat)
    requires Find(lives, c.id) == Some(l) && l.strategy.ident < ident
    ensures CarryOne(lives, c, ident).config == c
    ensures CarryOne(lives, c, ident).strategy == l.strategy <==> l.config.cfgKey == c.cfgKey
  {
  }

  lemma SameKeyIff(env: Env, c: Config, d: Config)
    requires Printable(env) && SoundConfig(env, c) && SoundConfig(env, d)
    ensures c.cfgKey == d.cfgKey <==>
            && Norms(c.shape.parts) == Norms(d.shape.parts) && c.shape.algorithm == d.shape.algorithm
            && c.shape.rate == d.shape.rate && c.size == d.size
  {
    CfgKeyIsInjective(c.shape, d.shape);
  }

  lemma SurvivesIff(env: Env, lives: seq<Live>, l: Live, c: Config, ident: nat)
    requires Printable(env) && SoundConfig(env, c) && SoundConfig(env, l.config)
    requires Find(lives, c.id) == Some(l) && l.strategy.ident < ident
    ensures CarryOne(lives, c, ident).config == c
    ensures CarryOne(lives, c, ident).strategy == l.strategy <==>
            && Norms(c.shape.parts) == Norms(l.config.shape.parts) && c.shape.algorithm == l.config.shape.algorithm
            && c.shape.rate == l.config.shape.rate && c.size == l.config.size
  {
    CarriedIff(lives, l, c, ident);
    SameKeyIff(env, c, l.config);
  }

  /**
   * Exactly when an edit keeps a limit's counters: the strategy survives an accepted batch if and only if the
   * canonical keys, the algorithm, the rate and the window are unchanged; filter, mode, status, message and
   * exclude edits, and edits of sibling limits, never reset it. A rejected batch keeps everything.
   */
  lemma CountersSurviveIff(env: Env, s: State, b: Batch, i: nat, l: Live)
    requires Printable(env) && Inv(env, s) && SoundBatch(env, b) && l in s.lives
    requires i < |b| && b[i].Some? && b[i].value.id == l.config.id
    ensures !Acceptable(b) ==> Applied(s, b).lives == s.lives
    ensures Acceptable(b) ==>
              var c, c' := l.config, b[i].value;
              && Applied(s, b).lives[i].config == c'
              && (Applied(s, b).lives[i].strategy == l.strategy <==>
                    && Norms(c'.shape.parts) == Norms(c.shape.parts) && c'.shape.algorithm == c.shape.algorithm
                    && c'.shape.rate == c.shape.rate && c'.size == c.size)
  {
    var at :| 0 <= at < |s.lives| && s.lives[at] == l;
    FindIsTheOne(s.lives, at);
    assert Sound(env, l, s.next);
    if Acceptable(b) {
      CarriedAt(s.lives, b, s.next, i);
      SurvivesIff(env, s.lives, l, b[i].value, s.next + i);
    }
  }
}
