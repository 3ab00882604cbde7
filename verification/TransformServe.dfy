/** Serving a request through a zone of transform rules (transformrule/transformrule.go). */
module TransformServe {
  import opened Outcomes
  import opened TransformRules
  import opened KeyEncoding

  /** The parts of a request that rules read and write; header names are lower-cased. */
  datatype Req = Req(path: string, rawPath: string, query: string, headers: map<string, string>)

  /** The snapshot that filters are evaluated on. */
  datatype Snapshot = Snapshot(req: Req, country: string, asn: int)

  /**
   * Resolvers and libraries. An expression has a value on a snapshot, or an error as None; and each rule's own
   * evaluation may fail besides, by timeout, cancellation or cost.
   */
  datatype World = World(
    country: Req -> string, asn: Req -> int, eval: (string, Snapshot) -> Option<bool>, fails: (nat, Snapshot) -> bool,
    replacePath: (string, string, string) -> string,
    editQuery: (string, map<string, string>, seq<string>) -> string,
    expand: (string, string) -> string)   // the redirect target with $uri replaced

  function Snap(world: World, r: Req): Snapshot {
    Snapshot(r, world.country(r), world.asn(r))
  }

  /** No filter always fires; an evaluation error never does. */
  predicate Matches<T>(world: World, rule: Rule<T>, s: Snapshot) {
    rule.filter.None? || (!world.fails(rule.decl, s) && world.eval(rule.filter.value, s) == Some(true))
  }

  /** The request after an operation, or the redirect it answers with. */
  datatype Step = Go(req: Req) | Stop(target: string, status: int)

  function Perform(world: World, op: ReqOp, r: Req, uri: string): Step {
    match op
    case SetHeader(name, value) => Go(r.(headers := r.headers[ToLower(name) := value]))
    case RemoveHeader(name) => Go(r.(headers := r.headers - {ToLower(name)}))
    case SetPath(path) => Go(r.(path := path, rawPath := ""))
    case ReplacePath(regex, replace) => Go(r.(path := world.replacePath(regex, r.path, replace), rawPath := ""))
    case EditQuery(query, remove) => Go(r.(query := world.editQuery(r.query, query, remove)))
    case Redirect(to, status) => Stop(world.expand(to, uri), status)
  }

  function PerformAll(world: World, ops: seq<ReqOp>, r: Req, uri: string): Step
    decreases |ops|
  {
    if ops == [] then Go(r)
    else
      match PerformAll(world, ops[..|ops| - 1], r, uri)
      case Stop(t, s) => Stop(t, s)
      case Go(r') => Perform(world, ops[|ops| - 1], r', uri)
  }

  // The meaning of a zone: a fresh snapshot before every filter.

  predicate Fires<T>(world: World, rule: Rule<T>, r: Req) {
    Matches(world, rule, Snap(world, r)) && !rule.shadow
  }

  /** The request phase: the request as the rules leave it, or the redirect of the first that redirects. */
  function RequestPhase(world: World, rules: seq<Rule<seq<ReqOp>>>, r: Req, uri: string): Step
    decreases |rules|
  {
    if rules == [] then Go(r)
    else
      match RequestPhase(world, rules[..|rules| - 1], r, uri)
      case Stop(t, s) => Stop(t, s)
      case Go(r') =>
        var rule := rules[|rules| - 1];
        if Fires(world, rule, r') then PerformAll(world, rule.body, r', uri) else Go(r')
  }

  function Firing<T>(world: World, rules: seq<Rule<T>>, r: Req): seq<Rule<T>> {
    if rules == [] then []
    else
      var n := |rules| - 1;
      var rest := Firing(world, rules[..n], r);
      if Fires(world, rules[n], r) then rest + [rules[n]] else rest
  }

  function Ops(rules: seq<Rule<seq<RespOp>>>): seq<RespOp> {
    if rules == [] then [] else Ops(rules[..|rules| - 1]) + rules[|rules| - 1].body
  }

  /** A chain of handlers around the upstream, outermost first. */
  datatype Handler = Upstream | Intercepted(ops: seq<RespOp>, inner: Handler) | Guarded(cors: Cors, inner: Handler)

  function Nest(rules: seq<Rule<Cors>>, inner: Handler): Handler {
    if rules == [] then inner else Guarded(rules[0].body, Nest(rules[1..], inner))
  }

  datatype Served = Answered(target: string, status: int) | Forwarded(req: Req, handler: Handler)

  function Serve(world: World, zone: Zone, r: Req, uri: string): Served {
    match RequestPhase(world, zone.req, r, uri)
    case Stop(t, s) => Answered(t, s)
    case Go(r') =>
      var ops := Ops(Firing(world, zone.resp, r'));
      Forwarded(r', Nest(Firing(world, zone.cors, r'), if ops == [] then Upstream else Intercepted(ops, Upstream)))
  }

  // The handler itself: one lazily built snapshot, dropped when a rule has mutated the request.

  datatype Cache = Cache(input: Snapshot, valid: bool)

  predicate Current(world: World, c: Cache, r: Req) {
    c.valid ==> c.input == Snap(world, r)
  }

  method Matched<T>(world: World, rule: Rule<T>, r: Req, cache: Cache) returns (ok: bool, after: Cache)
    requires Current(world, cache, r)
    ensures ok == Matches(world, rule, Snap(world, r)) && Current(world, after, r)
  {
    after := cache;
    if rule.filter.None? {
      return true, after;
    }
    if !after.valid {
      after := Cache(Snap(world, r), true);
    }
    if world.fails(rule.decl, after.input) {
      return false, after;
    }
    var v := world.eval(rule.filter.value, after.input);
    ok := v.Some? && v.value;
  }

  method RunRequestPhase(world: World, rules: seq<Rule<seq<ReqOp>>>, r0: Req, uri: string, cache0: Cache)
    returns (step: Step, cache: Cache)
    requires Current(world, cache0, r0)
    ensures step == RequestPhase(world, rules, r0, uri)
    ensures step.Go? ==> Current(world, cache, step.req)
  {
    var r := r0;
    cache := cache0;
    for i := 0 to |rules|
      invariant RequestPhase(world, rules[..i], r0, uri) == Go(r) && Current(world, cache, r)
    {
      var rule := rules[i];
      assert rules[..i + 1][..i] == rules[..i];
      var ok;
      ok, cache := Matched(world, rule, r, cache);
      if ok && !rule.shadow {
        var done := RunOps(world, rule.body, r, uri);
        if done.Stop? {
          StopsForGood(world, rules, i + 1, r0, uri);
          return done, cache;
        }
        r := done.req;
        cache := cache.(valid := false);
      }
    }
    assert rules[..|rules|] == rules;
    step := Go(r);
  }

  method RunOps(world: World, ops: seq<ReqOp>, r0: Req, uri: string) returns (step: Step)
    ensures step == PerformAll(world, ops, r0, uri)
  {
    step := Go(r0);
    for i := 0 to |ops|
      invariant step == PerformAll(world, ops[..i], r0, uri) && step.Go?
    {
      assert ops[..i + 1][..i] == ops[..i];
      step := Perform(world, ops[i], step.req, uri);
      if step.Stop? {
        OpStopsForGood(world, ops, i + 1, r0, uri);
        return;
      }
    }
    assert ops[..|ops|] == ops;
  }

  lemma {:induction false} OpStopsForGood(world: World, ops: seq<ReqOp>, n: nat, r: Req, uri: string)
    requires n <= |ops| && PerformAll(world, ops[..n], r, uri).Stop?
    ensures PerformAll(world, ops, r, uri) == PerformAll(world, ops[..n], r, uri)
    decreases |ops| - n
  {
    if n == |ops| {
      assert ops[..n] == ops;
    } else {
      assert ops[..n + 1][..n] == ops[..n];
      OpStopsForGood(world, ops, n + 1, r, uri);
    }
  }

  lemma {:induction false} StopsForGood(world: World, rules: seq<Rule<seq<ReqOp>>>, n: nat, r: Req, uri: string)
    requires n <= |rules| && RequestPhase(world, rules[..n], r, uri).Stop?
    ensures RequestPhase(world, rules, r, uri) == RequestPhase(world, rules[..n], r, uri)
    decreases |rules| - n
  {
    if n == |rules| {
      assert rules[..n] == rules;
    } else {
      assert rules[..n + 1][..n] == rules[..n];
      StopsForGood(world, rules, n + 1, r, uri);
    }
  }

  /** The handler with its cached snapshot does exactly what re-snapshotting before every filter would. */
  method ServeHandler(world: World, zone: Zone, r0: Req, uri: string) returns (served: Served)
    ensures served == Serve(world, zone, r0, uri)
  {
    var cache := Cache(Snapshot(r0, "", 0), false);
    var step;
    step, cache := RunRequestPhase(world, zone.req, r0, uri, cache);
    if step.Stop? {
      return Answered(step.target, step.status);
    }
    var r := step.req;
    var respOps: seq<RespOp> := [];
    for i := 0 to |zone.resp|
      invariant Current(world, cache, r) && respOps == Ops(Firing(world, zone.resp[..i], r))
    {
      assert zone.resp[..i + 1][..i] == zone.resp[..i];
      var ok;
      ok, cache := Matched(world, zone.resp[i], r, cache);
      if ok && !zone.resp[i].shadow {
        var fired := Firing(world, zone.resp[..i], r);
        assert (fired + [zone.resp[i]])[..|fired|] == fired;
        respOps := respOps + zone.resp[i].body;
      }
    }
    assert zone.resp[..|zone.resp|] == zone.resp;
    var inner := if |respOps| > 0 then Intercepted(respOps, Upstream) else Upstream;
    var h := inner;
    var i := |zone.cors|;
    while i > 0
      invariant 0 <= i <= |zone.cors|
      invariant Current(world, cache, r) && h == Nest(Firing(world, zone.cors[i..], r), inner)
    {
      i := i - 1;
      var ok;
      ok, cache := Matched(world, zone.cors[i], r, cache);
      FiringFromTheLeft(world, zone.cors[i..], r);
      assert zone.cors[i..][1..] == zone.cors[i + 1..];
      if ok && !zone.cors[i].shadow {
        h := Guarded(zone.cors[i].body, h);
      }
    }
    return Forwarded(r, h);
  }

  lemma {:induction false} FiringFromTheLeft<T>(world: World, rules: seq<Rule<T>>, r: Req)
    requires rules != []
    ensures var rest := Firing(world, rules[1..], r);
            Firing(world, rules, r) == if Fires(world, rules[0], r) then [rules[0]] + rest else rest
  {
    var n := |rules| - 1;
    if n > 0 {
      FiringFromTheLeft(world, rules[..n], r);
      assert rules[..n][1..] == rules[1..][..n - 1];
    }
  }

  // What a zone means, one rule and one operation at a time, from the top.

  /**
   * When a rule applies: never in shadow, always without a filter, and else if and only if its filter is true of the
   * request as it is by then; a filter whose evaluation fails or has no value does not apply.
   */
  lemma FilterDecides<T>(world: World, rule: Rule<T>, r: Req)
    ensures var s := Snapshot(r, world.country(r), world.asn(r));
            && (rule.shadow ==> !Fires(world, rule, r))
            && (!rule.shadow && rule.filter.None? ==> Fires(world, rule, r))
            && (rule.filter.Some? && (world.fails(rule.decl, s) || world.eval(rule.filter.value, s).None?) ==>
                  !Fires(world, rule, r))
            && (!rule.shadow && rule.filter.Some? && !world.fails(rule.decl, s) ==>
                  (Fires(world, rule, r) <==> world.eval(rule.filter.value, s) == Some(true)))
  {
  }

  lemma {:induction false} PhaseFromTheLeft(world: World, rules: seq<Rule<seq<ReqOp>>>, r: Req, uri: string)
    requires rules != []
    ensures RequestPhase(world, rules, r, uri) ==
            if !Fires(world, rules[0], r) then RequestPhase(world, rules[1..], r, uri)
            else
              match PerformAll(world, rules[0].body, r, uri)
              case Stop(t, s) => Stop(t, s)
              case Go(r') => RequestPhase(world, rules[1..], r', uri)
  {
    var n := |rules| - 1;
    if n == 0 {
      assert rules[..0] == [] && rules[1..] == [];
    } else {
      PhaseFromTheLeft(world, rules[..n], r, uri);
      assert rules[..n][1..] == rules[1..][..n - 1] && rules[1..][n - 1] == rules[n];
    }
  }

  /**
   * Rules compose from the top: serving a request is serving what the first request rule leaves of it by the
   * other rules, if that rule applies, and the request as it is if not; a redirect ends it.
   */
  lemma ServeFromTheTop(world: World, zone: Zone, r: Req, uri: string)
    requires zone.req != []
    ensures var first, others := zone.req[0], zone.(req := zone.req[1..]);
            Serve(world, zone, r, uri) ==
            if !Fires(world, first, r) then Serve(world, others, r, uri)
            else
              match PerformAll(world, first.body, r, uri)
              case Stop(t, s) => Answered(t, s)
              case Go(r') => Serve(world, others, r', uri)
  {
    PhaseFromTheLeft(world, zone.req, r, uri);
  }

  lemma {:induction false} OpsFromTheLeft(world: World, ops: seq<ReqOp>, r: Req, uri: string)
    requires ops != []
    ensures PerformAll(world, ops, r, uri) ==
            match PerformAll(world, [ops[0]], r, uri)
            case Stop(t, s) => Stop(t, s)
            case Go(r') => PerformAll(world, ops[1..], r', uri)
  {
    var n := |ops| - 1;
    if n == 0 {
      assert ops == [ops[0]] && ops[1..] == [];
    } else {
      OpsFromTheLeft(world, ops[..n], r, uri);
      assert ops[..n][1..] == ops[1..][..n - 1] && ops[1..][n - 1] == ops[n];
    }
  }

  /** What each operation does to a request, and that it leaves the rest alone. */
  lemma OperationsDo(world: World, op: ReqOp, r: Req, uri: string)
    ensures var step := PerformAll(world, [op], r, uri);
            && (op.Redirect? ==> step == Stop(world.expand(op.to, uri), op.status))
            && (!op.Redirect? ==> step.Go?)
            && (op.SetHeader? || op.RemoveHeader? ==>
                  && step.req == r.(headers := step.req.headers)
                  && forall h | h in r.headers && h != ToLower(op.name) ::
                       h in step.req.headers && step.req.headers[h] == r.headers[h])
            && (op.SetHeader? ==>
                  && step.req.headers.Keys == r.headers.Keys + {ToLower(op.name)}
                  && step.req.headers[ToLower(op.name)] == op.value)
            && (op.RemoveHeader? ==> step.req.headers.Keys == r.headers.Keys - {ToLower(op.name)})
            && (op.SetPath? || op.ReplacePath? ==>
                  && step.req == r.(path := step.req.path, rawPath := "")
                  && step.req.path == if op.SetPath? then op.path else world.replacePath(op.regex, r.path, op.replace))
            && (op.EditQuery? ==> step.req == r.(query := world.editQuery(r.query, op.query, op.removeQuery)))
  {
    assert [op][..0] == [] && PerformAll(world, [], r, uri) == Go(r);
  }

  /** Without request rules: the lowest-priority CORS rule that applies is outermost, around what the others make. */
  lemma CorsNests(world: World, zone: Zone, r: Req, uri: string)
    requires zone.req == [] && zone.cors != []
    ensures var inner := Serve(world, zone.(cors := zone.cors[1..]), r, uri);
            inner.Forwarded? &&
            Serve(world, zone, r, uri) ==
            Forwarded(r, if Fires(world, zone.cors[0], r) then Guarded(zone.cors[0].body, inner.handler)
                         else inner.handler)
  {
    FiringFromTheLeft(world, zone.cors, r);
    var rest := Firing(world, zone.cors[1..], r);
    assert ([zone.cors[0]] + rest)[1..] == rest;
  }

  /** Inside them one interceptor has the operations of every response rule that applies, in order; or there is none. */
  lemma ResponseRulesAppend(world: World, zone: Zone, r: Req, uri: string)
    requires zone.req == [] && zone.cors == []
    ensures zone.resp == [] ==> Serve(world, zone, r, uri) == Forwarded(r, Upstream)
    ensures zone.resp != [] ==>
              var others := Serve(world, zone.(resp := zone.resp[1..]), r, uri);
              && others.Forwarded? && (others.handler.Upstream? || others.handler.Intercepted?)
              && var more := if others.handler.Upstream? then [] else others.handler.ops;
              var ops := (if Fires(world, zone.resp[0], r) then zone.resp[0].body else []) + more;
              Serve(world, zone, r, uri) == Forwarded(r, if ops == [] then Upstream else Intercepted(ops, Upstream))
  {
    if zone.resp != [] {
      FiringFromTheLeft(world, zone.resp, r);
      var rest := Firing(world, zone.resp[1..], r);
      OpsOfFirst(zone.resp[0], rest);
    }
  }

  lemma {:induction false} OpsOfFirst(rule: Rule<seq<RespOp>>, rest: seq<Rule<seq<RespOp>>>)
    ensures Ops([rule] + rest) == rule.body + Ops(rest)
    decreases |rest|
  {
    var all := [rule] + rest;
    if rest == [] {
      assert all[..0] == [] && Ops([]) == [];
      assert [] + rule.body == rule.body + [];
    } else {
      var n := |rest| - 1;
      OpsOfFirst(rule, rest[..n]);
      assert all[..|all| - 1] == [rule] + rest[..n];
      Associate(rule.body, Ops(rest[..n]), rest[n].body);
    }
  }

  lemma Associate<T>(a: seq<T>, b: seq<T>, c: seq<T>)
    ensures (a + b) + c == a + (b + c)
  {
  }

  // From a document to what is served.

  function OneRule(phase: string, op: Op): seq<Document> {
    [Document([RawRule("r", phase, "", [op], "", 0)])]
  }

  /** What a document of one unfiltered request rule with one operation asks to serve, if it is well written. */
  function AskedOfRequest(env: Env, world: World, op: Op, r: Req, uri: string): Option<Served> {
    match op.typ
    case "set-header" =>
      if env.headerName(op.name) && env.headerValue(op.value)
      then Some(Forwarded(r.(headers := r.headers[ToLower(op.name) := op.value]), Upstream)) else None
    case "remove-header" =>
      if env.headerName(op.name) then Some(Forwarded(r.(headers := r.headers - {ToLower(op.name)}), Upstream)) else None
    case "rewrite-path" =>
      if op.path != "" && op.regex == "" && op.replace == ""
      then Some(Forwarded(r.(path := op.path, rawPath := ""), Upstream))
      else if op.path == "" && op.regex != "" && op.replace != "" && env.regexCompiles(op.regex)
      then Some(Forwarded(r.(path := world.replacePath(op.regex, r.path, op.replace), rawPath := ""), Upstream))
      else None
    case "rewrite-query" =>
      if op.query != map[] || op.removeQuery != []
      then Some(Forwarded(r.(query := world.editQuery(r.query, op.query, op.removeQuery)), Upstream)) else None
    case "redirect" => Some(Answered(world.expand(op.to, uri), if op.status == 0 then 302 else op.status))
    case _ => None
  }

  /** The same of a response rule: the handler around the upstream. */
  function AskedOfResponse(env: Env, op: Op): Option<Handler> {
    match op.typ
    case "set-header" =>
      if env.headerName(op.name) && env.headerValue(op.value)
      then Some(Intercepted([SetRespHeader(op.name, op.value)], Upstream)) else None
    case "remove-header" =>
      if env.headerName(op.name) then Some(Intercepted([RemoveRespHeader(op.name)], Upstream)) else None
    case "set-status" =>
      if 100 <= op.status <= 599 then Some(Intercepted([SetStatus(op.status)], Upstream)) else None
    case "cors" =>
      if (op.maxAge != "" && !env.durationParses(op.maxAge)) || op.allowOrigins == [] then None
      else if op.allowOrigins != ["*"]
      then Some(Guarded(Cors(false, op.allowOrigins, op.allowCredentials, op.maxAge), Upstream))
      else if op.allowCredentials then None
      else Some(Guarded(Cors(true, [], false, op.maxAge), Upstream))
    case _ => None
  }

  lemma OneOpPhase(world: World, rule: Rule<seq<ReqOp>>, r: Req, uri: string)
    requires |rule.body| == 1 && rule.filter.None? && !rule.shadow
    ensures RequestPhase(world, [rule], r, uri) == Perform(world, rule.body[0], r, uri)
  {
    assert [rule][..0] == [] && rule.body[..0] == [];
    assert PerformAll(world, [], r, uri) == Go(r) && RequestPhase(world, [], r, uri) == Go(r);
  }

  /** A document of one request operation parses exactly if it is well written, and then does what it asks. */
  lemma RequestOpEndToEnd(env: Env, world: World, op: Op, r: Req, uri: string)
    requires env.trim("") == ""
    ensures var zone, asked := ParseZone(env, OneRule("request", op)), AskedOfRequest(env, world, op, r, uri);
            && (zone.Some? <==> asked.Some?)
            && (zone.Some? ==> Serve(world, zone.value, r, uri) == asked.value)
  {
    LoneRequestRule(env, op);
    if CompileReqOp(env, op, true).Some? {
      OneOpPhase(world, Rule(0, "r", 0, None, false, [CompileReqOp(env, op, true).value]), r, uri);
    }
  }

  lemma LoneRequestRule(env: Env, op: Op)
    requires env.trim("") == ""
    ensures ParseZone(env, OneRule("request", op)) ==
            if CompileReqOp(env, op, true).None? then None
            else Some(Zone([Rule(0, "r", 0, None, false, [CompileReqOp(env, op, true).value])], [], []))
  {
    LoneRuleParses(env, RawRule("r", "request", "", [op], "", 0));
    LoneCompiles(ReqCompiler(env, true), op);
  }

  lemma LoneCompiles<A, B>(compile: A -> Option<B>, x: A)
    ensures All(compile, [x]) == if compile(x).Some? then Some([compile(x).value]) else None
  {
    assert [x][..0] == [] && All(compile, []) == Some([]);
    if compile(x).Some? {
      AllOfOne(compile, x);
    }
  }

  lemma ResponseOpEndToEnd(env: Env, world: World, op: Op, r: Req, uri: string)
    requires env.trim("") == ""
    ensures var zone, asked := ParseZone(env, OneRule("response", op)), AskedOfResponse(env, op);
            && (zone.Some? <==> asked.Some?)
            && (zone.Some? ==> Serve(world, zone.value, r, uri) == Forwarded(r, asked.value))
  {
    var raw := RawRule("r", "response", "", [op], "", 0);
    LoneRuleParses(env, raw);
    LoneCompiles(RespCompiler(env), op);
    if op.typ == "cors" {
      if CompileCors(env, op).Some? {
        OneCors(world, Rule(0, "r", 0, None, false, CompileCors(env, op).value), r, uri);
      }
    } else if CompileRespOp(env, op).Some? {
      OneResponseRule(world, Rule(0, "r", 0, None, false, [CompileRespOp(env, op).value]), r, uri);
    }
  }

  lemma OneCors(world: World, rule: Rule<Cors>, r: Req, uri: string)
    requires rule.filter.None? && !rule.shadow
    ensures Serve(world, Zone([], [], [rule]), r, uri) == Forwarded(r, Guarded(rule.body, Upstream))
  {
    CorsNests(world, Zone([], [], [rule]), r, uri);
    assert [rule][1..] == [];
    ResponseRulesAppend(world, Zone([], [], []), r, uri);
  }

  lemma OneResponseRule(world: World, rule: Rule<seq<RespOp>>, r: Req, uri: string)
    requires rule.filter.None? && !rule.shadow && rule.body != []
    ensures Serve(world, Zone([], [rule], []), r, uri) == Forwarded(r, Intercepted(rule.body, Upstream))
  {
    ResponseRulesAppend(world, Zone([], [rule], []), r, uri);
    assert [rule][1..] == [] && rule.body + [] == rule.body;
    ResponseRulesAppend(world, Zone([], [], []), r, uri);
  }

  // What a zone means to its clients.

  function WithoutShadow<T>(rules: seq<Rule<T>>): seq<Rule<T>> {
    if rules == [] then []
    else
      var n := |rules| - 1;
      if rules[n].shadow then WithoutShadow(rules[..n]) else WithoutShadow(rules[..n]) + [rules[n]]
  }

  lemma {:induction false} ShadowNeverFires<T>(world: World, rules: seq<Rule<T>>, r: Req)
    ensures Firing(world, WithoutShadow(rules), r) == Firing(world, rules, r)
  {
    if rules != [] {
      var n := |rules| - 1;
      ShadowNeverFires(world, rules[..n], r);
      var kept := WithoutShadow(rules[..n]);
      assert (kept + [rules[n]])[..|kept|] == kept;
    }
  }

  lemma PhaseSnoc(world: World, rules: seq<Rule<seq<ReqOp>>>, rule: Rule<seq<ReqOp>>, r: Req, uri: string)
    ensures RequestPhase(world, rules + [rule], r, uri) ==
            match RequestPhase(world, rules, r, uri)
            case Stop(t, s) => Stop(t, s)
            case Go(r') => if Fires(world, rule, r') then PerformAll(world, rule.body, r', uri) else Go(r')
  {
    assert (rules + [rule])[..|rules|] == rules;
  }

  lemma {:induction false} ShadowNeverMutates(world: World, rules: seq<Rule<seq<ReqOp>>>, r: Req, uri: string)
    ensures RequestPhase(world, WithoutShadow(rules), r, uri) == RequestPhase(world, rules, r, uri)
  {
    if rules != [] {
      var n := |rules| - 1;
      ShadowNeverMutates(world, rules[..n], r, uri);
      PhaseSnoc(world, rules[..n], rules[n], r, uri);
      PhaseSnoc(world, WithoutShadow(rules[..n]), rules[n], r, uri);
      assert rules[..n] + [rules[n]] == rules;
    }
  }

  /** Shadow rules change nothing: a zone serves every request as if they were not there. */
  lemma ShadowIsInert(world: World, zone: Zone, r: Req, uri: string)
    ensures Serve(world, Zone(WithoutShadow(zone.req), WithoutShadow(zone.resp), WithoutShadow(zone.cors)), r, uri)
            == Serve(world, zone, r, uri)
  {
    ShadowNeverMutates(world, zone.req, r, uri);
    var step := RequestPhase(world, zone.req, r, uri);
    if step.Go? {
      ShadowNeverFires(world, zone.resp, step.req);
      ShadowNeverFires(world, zone.cors, step.req);
    }
  }

  /** The handler that keeps its first snapshot for good. */
  function NeverRefreshed(world: World, rules: seq<Rule<seq<ReqOp>>>, r: Req, s: Snapshot, uri: string): Step
    decreases |rules|
  {
    if rules == [] then Go(r)
    else
      match NeverRefreshed(world, rules[..|rules| - 1], r, s, uri)
      case Stop(t, st) => Stop(t, st)
      case Go(r') =>
        var rule := rules[|rules| - 1];
        if Matches(world, rule, s) && !rule.shadow then PerformAll(world, rule.body, r', uri) else Go(r')
  }

  /** Dropping the snapshot after a mutation is needed: without it a later filter would miss the mutation. */
  lemma StaleSnapshotDiffers(world: World, r: Req)
    requires forall f, s :: world.eval(f, s) == Some(s.req.path == f)
    requires forall d, s :: !world.fails(d, s)
    requires r.path != "/new"
    ensures var rules := [Rule(0, "a", 0, None, false, [SetPath("/new")]),
                          Rule(1, "b", 0, Some("/new"), false, [Redirect("/", 302)])];
            && RequestPhase(world, rules, r, "").Stop?
            && NeverRefreshed(world, rules, r, Snap(world, r), "").Go?
  {
    var a := Rule(0, "a", 0, None, false, [SetPath("/new")]);
    var b := Rule(1, "b", 0, Some("/new"), false, [Redirect("/", 302)]);
    assert [a, b][..1] == [a] && [a][..0] == [];
    assert [SetPath("/new")][..0] == [] && [ReqOp.Redirect("/", 302)][..0] == [];
    var r' := r.(path := "/new", rawPath := "");
    assert PerformAll(world, a.body, r, "") == Go(r');
    assert RequestPhase(world, [a], r, "") == Go(r');
    assert NeverRefreshed(world, [a], r, Snap(world, r), "") == Go(r');
  }

  // The response interceptor.

  datatype Committed = Committed(headers: map<string, string>, status: Option<int>)

  function Edit(headers: map<string, string>, op: RespOp): map<string, string> {
    match op
    case SetStatus(_) => headers
    case SetRespHeader(name, value) => headers[ToLower(name) := value]
    case RemoveRespHeader(name) => headers - {ToLower(name)}
  }

  /** Header edits in order, whatever status overrides lie between them. */
  function Edited(headers: map<string, string>, ops: seq<RespOp>): map<string, string> {
    if ops == [] then headers else Edit(Edited(headers, ops[..|ops| - 1]), ops[|ops| - 1])
  }

  /** What the edits do, from the first on. */
  lemma {:induction false} EditsDo(headers: map<string, string>, ops: seq<RespOp>)
    ensures Edited(headers, []) == headers
    ensures ops != [] && ops[0].SetStatus? ==> Edited(headers, ops) == Edited(headers, ops[1..])
    ensures ops != [] && ops[0].SetRespHeader? ==>
              Edited(headers, ops) == Edited(headers[ToLower(ops[0].name) := ops[0].value], ops[1..])
    ensures ops != [] && ops[0].RemoveRespHeader? ==>
              Edited(headers, ops) ==
              Edited(map h | h in headers && h != ToLower(ops[0].name) :: headers[h], ops[1..])
  {
    var n := |ops| - 1;
    if n == 0 {
      assert ops[..0] == [] && ops[1..] == [];
    } else if n > 0 {
      EditsDo(headers, ops[..n]);
      assert ops[..n][1..] == ops[1..][..n - 1] && ops[1..][n - 1] == ops[n];
    }
    if ops != [] && ops[0].RemoveRespHeader? {
      var name := ToLower(ops[0].name);
      assert headers - {name} == map h | h in headers && h != name :: headers[h];
    }
  }

  /** Which override is the last: None, or its status with nothing after it. */
  ghost predicate IsLastStatus(ops: seq<RespOp>, status: Option<int>) {
    match status
    case None => forall i | 0 <= i < |ops| :: !ops[i].SetStatus?
    case Some(s) => exists i | 0 <= i < |ops| ::
                      ops[i] == SetStatus(s) && forall j | i < j < |ops| :: !ops[j].SetStatus?
  }

  method Intercept(ops: seq<RespOp>, upstream: map<string, string>) returns (c: Committed)
    requires forall i | 0 <= i < |ops| :: ops[i].SetStatus? ==> ops[i].status > 0
    ensures c.headers == Edited(upstream, ops) && IsLastStatus(ops, c.status)
  {
    var headers, status := upstream, 0;
    for i := 0 to |ops|
      invariant headers == Edited(upstream, ops[..i]) && status >= 0
      invariant status == 0 ==> IsLastStatus(ops[..i], None)
      invariant status > 0 ==> IsLastStatus(ops[..i], Some(status))
    {
      assert ops[..i + 1][..i] == ops[..i];
      if ops[i].SetStatus? {
        status := ops[i].status;
        assert ops[..i + 1][i] == SetStatus(status);
      } else {
        LastStatusStays(ops[..i], ops[i], if status == 0 then None else Some(status));
        assert ops[..i] + [ops[i]] == ops[..i + 1];
        headers := Edit(headers, ops[i]);
      }
    }
    assert ops[..|ops|] == ops;
    c := Committed(headers, if status > 0 then Some(status) else None);
  }

  lemma LastStatusStays(ops: seq<RespOp>, op: RespOp, status: Option<int>)
    requires IsLastStatus(ops, status) && !op.SetStatus?
    ensures IsLastStatus(ops + [op], status)
  {
    if status.Some? {
      var i :| 0 <= i < |ops| && ops[i] == SetStatus(status.value) && forall j | i < j < |ops| :: !ops[j].SetStatus?;
      assert (ops + [op])[i] == SetStatus(status.value);
    }
  }
}
