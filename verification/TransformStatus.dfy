/**
 * The statuses a zone can emit: overrides are checked when a zone is compiled, redirects are not
 * (transformrule/transformrule.go).
 */
module TransformStatus {
  import opened Outcomes
  import opened TransformRules
  import opened TransformServe

  /** The response writer takes these and panics on any other. */
  predicate Writable(status: int) {
    100 <= status <= 999
  }

  predicate OverridesWell(ops: seq<RespOp>) {
    forall i | 0 <= i < |ops| :: ops[i].SetStatus? ==> Writable(ops[i].status)
  }

  predicate HandlerWell(h: Handler) {
    match h
    case Upstream => true
    case Intercepted(ops, inner) => OverridesWell(ops) && HandlerWell(inner)
    case Guarded(_, inner) => HandlerWell(inner)
  }

  /** What one request gets from the zone itself can be written. */
  predicate EmitsWell(served: Served) {
    match served
    case Answered(_, status) => Writable(status)
    case Forwarded(_, handler) => HandlerWell(handler)
  }

  /** In every world, every request gets from the zone only statuses that can be written. */
  ghost predicate AlwaysEmitsWell(zone: Zone) {
    forall world: World, r: Req, uri: string :: EmitsWell(Serve(world, zone, r, uri))
  }

  // Which rules of a zone can redirect.

  predicate Redirects(rule: Rule<seq<ReqOp>>) {
    !rule.shadow && |rule.body| == 1 && rule.body[0].Redirect?
  }

  /** It redirects every request that gets to it. */
  predicate Masks(rule: Rule<seq<ReqOp>>) {
    Redirects(rule) && rule.filter.None?
  }

  /** A redirect that is not hidden behind an unconditional one. */
  predicate Reached(rules: seq<Rule<seq<ReqOp>>>, i: nat)
    requires i < |rules|
  {
    Redirects(rules[i]) && forall j | 0 <= j < i :: !Masks(rules[j])
  }

  predicate ReachedWell(rules: seq<Rule<seq<ReqOp>>>) {
    forall i | 0 <= i < |rules| :: Reached(rules, i) ==> Writable(rules[i].body[0].status)
  }

  /** As compilation leaves them: a redirect is alone in its rule, and every rule has its own predicate. */
  predicate Shaped(rules: seq<Rule<seq<ReqOp>>>) {
    && (forall i, k | 0 <= i < |rules| && 0 <= k < |rules[i].body| && rules[i].body[k].Redirect? ::
          |rules[i].body| == 1)
    && (forall i, j | 0 <= i < j < |rules| :: rules[i].decl != rules[j].decl)
  }

  lemma ShapedPrefix(rules: seq<Rule<seq<ReqOp>>>, n: nat)
    requires Shaped(rules) && n <= |rules|
    ensures Shaped(rules[..n])
  {
    assert forall i | 0 <= i < n :: rules[..n][i] == rules[i];
  }

  lemma {:induction false} OnlyRedirectsStop(world: World, ops: seq<ReqOp>, r: Req, uri: string)
    ensures PerformAll(world, ops, r, uri).Stop? ==> exists k | 0 <= k < |ops| :: ops[k].Redirect?
  {
    if ops != [] {
      var n := |ops| - 1;
      OnlyRedirectsStop(world, ops[..n], r, uri);
      if k :| 0 <= k < n && ops[..n][k].Redirect? {
        assert ops[k].Redirect?;
      }
    }
  }

  lemma LoneRedirectStops(world: World, rule: Rule<seq<ReqOp>>, r: Req, uri: string)
    requires |rule.body| == 1 && rule.body[0].Redirect?
    ensures PerformAll(world, rule.body, r, uri) ==
            Stop(world.expand(rule.body[0].to, uri), rule.body[0].status)
  {
    assert rule.body[..0] == [] && PerformAll(world, [], r, uri) == Go(r);
  }

  /** Nothing gets past an unconditional redirect. */
  lemma MaskStops(world: World, rules: seq<Rule<seq<ReqOp>>>, j: nat, r: Req, uri: string)
    requires j < |rules| && Masks(rules[j])
    ensures RequestPhase(world, rules, r, uri).Stop?
  {
    assert rules[..j + 1][..j] == rules[..j];
    var before := RequestPhase(world, rules[..j], r, uri);
    if before.Go? {
      LoneRedirectStops(world, rules[j], before.req, uri);
    }
    StopsForGood(world, rules, j + 1, r, uri);
  }

  /** Every redirect that answers a request is one that is reached. */
  lemma {:induction false} AnswersAreReached(world: World, rules: seq<Rule<seq<ReqOp>>>, r: Req, uri: string)
    returns (i: nat)
    requires Shaped(rules) && RequestPhase(world, rules, r, uri).Stop?
    ensures i < |rules| && Reached(rules, i) && RequestPhase(world, rules, r, uri).status == rules[i].body[0].status
  {
    var n := |rules| - 1;
    var before := RequestPhase(world, rules[..n], r, uri);
    ShapedPrefix(rules, n);
    assert forall j | 0 <= j < n :: rules[..n][j] == rules[j];
    if before.Stop? {
      i := AnswersAreReached(world, rules[..n], r, uri);
    } else {
      i := n;
      OnlyRedirectsStop(world, rules[n].body, before.req, uri);
      LoneRedirectStops(world, rules[n], before.req, uri);
      forall j | 0 <= j < n ensures !Masks(rules[j]) {
        if Masks(rules[j]) {
          MaskStops(world, rules[..n], j, r, uri);
        }
      }
    }
  }

  /** The world in which every filter is true, and every evaluation fails but that of one rule. */
  function OnlyWorld(decl: nat): World {
    World(_ => "", _ => 0, (_, _) => Some(true), (d, _) => d != decl, (_, path, _) => path, (query, _, _) => query,
          (to, _) => to)
  }

  /** Up to a reached redirect, that world lets every request through. */
  lemma {:induction false} OthersLetThrough(rules: seq<Rule<seq<ReqOp>>>, i: nat, n: nat, r: Req, uri: string)
    requires Shaped(rules) && i < |rules| && Reached(rules, i) && n <= i
    ensures RequestPhase(OnlyWorld(rules[i].decl), rules[..n], r, uri).Go?
  {
    if n > 0 {
      var world := OnlyWorld(rules[i].decl);
      OthersLetThrough(rules, i, n - 1, r, uri);
      assert rules[..n][..n - 1] == rules[..n - 1];
      var before := RequestPhase(world, rules[..n - 1], r, uri).req;
      OnlyRedirectsStop(world, rules[n - 1].body, before, uri);
      assert !Masks(rules[n - 1]) && rules[n - 1].decl != rules[i].decl;
    }
  }

  /** Every redirect that is reached answers some request. */
  lemma ReachedAnswers(rules: seq<Rule<seq<ReqOp>>>, i: nat, r: Req, uri: string)
    requires Shaped(rules) && i < |rules| && Reached(rules, i)
    ensures RequestPhase(OnlyWorld(rules[i].decl), rules, r, uri).Stop?
    ensures RequestPhase(OnlyWorld(rules[i].decl), rules, r, uri).status == rules[i].body[0].status
  {
    var world := OnlyWorld(rules[i].decl);
    OthersLetThrough(rules, i, i, r, uri);
    assert rules[..i + 1][..i] == rules[..i];
    LoneRedirectStops(world, rules[i], RequestPhase(world, rules[..i], r, uri).req, uri);
    StopsForGood(world, rules, i + 1, r, uri);
  }

  lemma {:induction false} FiredOverridesWell(world: World, rules: seq<Rule<seq<RespOp>>>, r: Req)
    requires forall i | 0 <= i < |rules| :: OverridesWell(rules[i].body)
    ensures OverridesWell(Ops(Firing(world, rules, r)))
  {
    if rules != [] {
      var n := |rules| - 1;
      assert forall i | 0 <= i < n :: rules[..n][i] == rules[i];
      FiredOverridesWell(world, rules[..n], r);
      var rest := Firing(world, rules[..n], r);
      assert (rest + [rules[n]])[..|rest|] == rest;
    }
  }

  lemma {:induction false} NestedWell(rules: seq<Rule<Cors>>, inner: Handler)
    requires HandlerWell(inner)
    ensures HandlerWell(Nest(rules, inner))
  {
    if rules != [] {
      NestedWell(rules[1..], inner);
    }
  }

  /** In every world and for every request: exactly the redirects that are reached decide. */
  lemma ZoneEmitsWellIff(zone: Zone)
    requires Shaped(zone.req) && forall i | 0 <= i < |zone.resp| :: OverridesWell(zone.resp[i].body)
    ensures AlwaysEmitsWell(zone) <==> ReachedWell(zone.req)
  {
    if ReachedWell(zone.req) {
      forall world: World, r: Req, uri: string ensures EmitsWell(Serve(world, zone, r, uri)) {
        var step := RequestPhase(world, zone.req, r, uri);
        if step.Stop? {
          var i := AnswersAreReached(world, zone.req, r, uri);
        } else {
          FiredOverridesWell(world, zone.resp, step.req);
          var ops := Ops(Firing(world, zone.resp, step.req));
          NestedWell(Firing(world, zone.cors, step.req), if ops == [] then Upstream else Intercepted(ops, Upstream));
        }
      }
    } else {
      var i :| 0 <= i < |zone.req| && Reached(zone.req, i) && !Writable(zone.req[i].body[0].status);
      var world, r := OnlyWorld(zone.req[i].decl), Req("", "", "", map[]);
      ReachedAnswers(zone.req, i, r, "");
      assert !EmitsWell(Serve(world, zone, r, ""));
    }
  }

  // Back to the documents.

  /** The same of rules in any order: no unconditional redirect runs before this one. */
  ghost predicate Exposed(rules: seq<Rule<seq<ReqOp>>>, x: Rule<seq<ReqOp>>) {
    Redirects(x) && forall y | y in rules && Masks(y) :: !RunsBefore(y, x)
  }

  lemma ReachedIffExposed(rules: seq<Rule<seq<ReqOp>>>, i: nat)
    requires InRunOrder(rules) && i < |rules|
    ensures Reached(rules, i) <==> Exposed(rules, rules[i])
  {
    if Reached(rules, i) {
      forall y | y in rules && Masks(y) ensures !RunsBefore(y, rules[i]) {
        var j :| 0 <= j < |rules| && rules[j] == y;
        assert j > i ==> RunsBefore(rules[i], rules[j]);
      }
    } else if Redirects(rules[i]) {
      var j :| 0 <= j < i && Masks(rules[j]);
      assert rules[j] in rules && RunsBefore(rules[j], rules[i]);
    }
  }

  /** A raw rule that asks to redirect, with its mode on. */
  predicate RawRedirects(r: RawRule) {
    r.phase == "request" && r.mode != "shadow" && |r.ops| == 1 && r.ops[0].typ == "redirect"
  }

  predicate RawMasks(env: Env, r: RawRule) {
    RawRedirects(r) && env.trim(r.filter) == ""
  }

  predicate RawBefore(rules: seq<RawRule>, j: nat, i: nat)
    requires j < |rules| && i < |rules|
  {
    rules[j].priority < rules[i].priority || (rules[j].priority == rules[i].priority && j < i)
  }

  /** A redirect in the documents before which, by priority and then as declared, no unconditional one stands. */
  predicate RawExposed(env: Env, rules: seq<RawRule>, i: nat)
    requires i < |rules|
  {
    RawRedirects(rules[i]) && forall j | 0 <= j < |rules| && RawMasks(env, rules[j]) :: !RawBefore(rules, j, i)
  }

  predicate AsksWell(env: Env, rules: seq<RawRule>) {
    forall i | 0 <= i < |rules| && RawExposed(env, rules, i) ::
      rules[i].ops[0].status == 0 || Writable(rules[i].ops[0].status)
  }

  /** How one raw rule of the request phase compiles. */
  lemma RedirectCompiles(env: Env, r: RawRule, decl: nat)
    requires CompileRule(env, r, decl).Some? && CompileRule(env, r, decl).value.ReqRule?
    ensures var x := CompileRule(env, r, decl).value.req;
            && x.decl == decl && x.prio == r.priority
            && (Redirects(x) <==> RawRedirects(r)) && (Masks(x) <==> RawMasks(env, r))
            && (Redirects(x) ==> x.body[0].status == if r.ops[0].status == 0 then 302 else r.ops[0].status)
  {
    AllCompile(ReqCompiler(env, |r.ops| == 1), r.ops);
  }

  lemma RedirectsAreRequestRules(env: Env, r: RawRule, decl: nat)
    requires CompileRule(env, r, decl).Some? && RawRedirects(r)
    ensures CompileRule(env, r, decl).value.ReqRule?
  {
  }

  predicate IsRequestRule(env: Env, rules: seq<RawRule>, i: nat)
    requires i < |rules|
  {
    CompileRule(env, rules[i], i).Some? && CompileRule(env, rules[i], i).value.ReqRule?
  }

  function RequestRule(env: Env, rules: seq<RawRule>, i: nat): Rule<seq<ReqOp>>
    requires i < |rules| && IsRequestRule(env, rules, i)
  {
    CompileRule(env, rules[i], i).value.req
  }

  predicate ComesFrom(env: Env, rules: seq<RawRule>, x: Rule<seq<ReqOp>>) {
    x.decl < |rules| && IsRequestRule(env, rules, x.decl) && RequestRule(env, rules, x.decl) == x
  }

  /** The request rules of a compiled zone are those of the raw rules that compile to one, each at its place. */
  ghost predicate From(env: Env, rules: seq<RawRule>, req: seq<Rule<seq<ReqOp>>>) {
    && DeclaredInOrder(req, |rules|)
    && (forall k | 0 <= k < |req| :: ComesFrom(env, rules, req[k]))
    && (forall i | 0 <= i < |rules| && IsRequestRule(env, rules, i) :: RequestRule(env, rules, i) in req)
  }

  lemma ComesFromStays(env: Env, rules: seq<RawRule>, raw: RawRule, x: Rule<seq<ReqOp>>)
    requires ComesFrom(env, rules, x)
    ensures ComesFrom(env, rules + [raw], x)
  {
    assert (rules + [raw])[x.decl] == rules[x.decl];
  }

  function Grown(req: seq<Rule<seq<ReqOp>>>, c: Compiled): seq<Rule<seq<ReqOp>>> {
    if c.ReqRule? then req + [c.req] else req
  }

  /** One rule more at the end: every rule among the grown ones still comes from its place. */
  lemma GrownComesFrom(env: Env, rules: seq<RawRule>, raw: RawRule, req: seq<Rule<seq<ReqOp>>>, c: Compiled, k: nat)
    requires From(env, rules, req) && CompileRule(env, raw, |rules|) == Some(c) && k < |Grown(req, c)|
    ensures ComesFrom(env, rules + [raw], Grown(req, c)[k])
  {
    assert (rules + [raw])[|rules|] == raw;
    if k < |req| {
      ComesFromStays(env, rules, raw, req[k]);
    } else {
      RedirectCompiles(env, raw, |rules|);
    }
  }

  lemma GrownHolds(env: Env, rules: seq<RawRule>, raw: RawRule, req: seq<Rule<seq<ReqOp>>>, c: Compiled, i: nat)
    requires From(env, rules, req) && CompileRule(env, raw, |rules|) == Some(c)
    requires i <= |rules| && IsRequestRule(env, rules + [raw], i)
    ensures RequestRule(env, rules + [raw], i) in Grown(req, c)
  {
    if i < |rules| {
      assert (rules + [raw])[i] == rules[i] && IsRequestRule(env, rules, i);
      assert RequestRule(env, rules + [raw], i) in req;
    } else {
      assert (rules + [raw])[i] == raw && Grown(req, c)[|req|] == c.req;
    }
  }

  lemma GrownDeclared(env: Env, req: seq<Rule<seq<ReqOp>>>, raw: RawRule, c: Compiled, n: nat)
    requires DeclaredInOrder(req, n) && CompileRule(env, raw, n) == Some(c)
    ensures DeclaredInOrder(Grown(req, c), n + 1)
  {
    if c.ReqRule? {
      RedirectCompiles(env, raw, n);
    }
  }

  lemma FromGrows(env: Env, rules: seq<RawRule>, raw: RawRule, req: seq<Rule<seq<ReqOp>>>, c: Compiled)
    requires From(env, rules, req) && CompileRule(env, raw, |rules|) == Some(c)
    ensures From(env, rules + [raw], Grown(req, c))
  {
    GrownDeclared(env, req, raw, c, |rules|);
    forall k | 0 <= k < |Grown(req, c)| ensures ComesFrom(env, rules + [raw], Grown(req, c)[k]) {
      GrownComesFrom(env, rules, raw, req, c, k);
    }
    forall i | 0 <= i < |rules + [raw]| && IsRequestRule(env, rules + [raw], i)
      ensures RequestRule(env, rules + [raw], i) in Grown(req, c)
    {
      GrownHolds(env, rules, raw, req, c, i);
    }
  }

  lemma {:induction false} CompiledFrom(env: Env, rules: seq<RawRule>)
    requires CompileAll(env, rules).Some?
    ensures From(env, rules, CompileAll(env, rules).value.req)
  {
    if rules != [] {
      var n := |rules| - 1;
      CompiledFrom(env, rules[..n]);
      FromGrows(env, rules[..n], rules[n], CompileAll(env, rules[..n]).value.req, CompileRule(env, rules[n], n).value);
      assert rules[..n] + [rules[n]] == rules;
    }
  }

  lemma Origin(env: Env, rules: seq<RawRule>, req: seq<Rule<seq<ReqOp>>>, x: Rule<seq<ReqOp>>)
    requires From(env, rules, req) && x in req
    ensures ComesFrom(env, rules, x) && x.prio == rules[x.decl].priority
    ensures (Redirects(x) <==> RawRedirects(rules[x.decl])) && (Masks(x) <==> RawMasks(env, rules[x.decl]))
    ensures Redirects(x) ==>
              x.body[0].status == if rules[x.decl].ops[0].status == 0 then 302 else rules[x.decl].ops[0].status
  {
    var k :| 0 <= k < |req| && req[k] == x;
    assert ComesFrom(env, rules, req[k]);
    RedirectCompiles(env, rules[x.decl], x.decl);
  }

  /** A raw rule that redirects compiles to a request rule, which is among them. */
  lemma Image(env: Env, rules: seq<RawRule>, req: seq<Rule<seq<ReqOp>>>, i: nat) returns (x: Rule<seq<ReqOp>>)
    requires CompileAll(env, rules).Some? && From(env, rules, req) && i < |rules| && RawRedirects(rules[i])
    ensures x in req && x.decl == i
  {
    RulesCompileIff(env, rules);
    RedirectsAreRequestRules(env, rules[i], i);
    RedirectCompiles(env, rules[i], i);
    x := RequestRule(env, rules, i);
  }

  lemma ExposedIffRaw(env: Env, rules: seq<RawRule>, req: seq<Rule<seq<ReqOp>>>, x: Rule<seq<ReqOp>>)
    requires CompileAll(env, rules).Some? && From(env, rules, req) && x in req
    ensures x.decl < |rules| && (Exposed(req, x) <==> RawExposed(env, rules, x.decl))
  {
    Origin(env, rules, req, x);
    if Exposed(req, x) {
      forall j | 0 <= j < |rules| && RawMasks(env, rules[j]) ensures !RawBefore(rules, j, x.decl) {
        var y := Image(env, rules, req, j);
        Origin(env, rules, req, y);
        assert !RunsBefore(y, x);
      }
    }
    if RawExposed(env, rules, x.decl) {
      forall y | y in req && Masks(y) ensures !RunsBefore(y, x) {
        Origin(env, rules, req, y);
        assert !RawBefore(rules, y.decl, x.decl);
      }
    }
  }

  lemma ExposedInRunOrder(req: seq<Rule<seq<ReqOp>>>, x: Rule<seq<ReqOp>>)
    ensures Exposed(SortStable(req), x) <==> Exposed(req, x)
  {
    if Exposed(SortStable(req), x) {
      forall y | y in req && Masks(y) ensures !RunsBefore(y, x) {
        SortMember(req, y);
      }
    }
    if Exposed(req, x) {
      forall y | y in SortStable(req) && Masks(y) ensures !RunsBefore(y, x) {
        SortMember(req, y);
      }
    }
  }

  lemma ReachedIffRaw(env: Env, rules: seq<RawRule>, req: seq<Rule<seq<ReqOp>>>, i: nat)
    requires CompileAll(env, rules).Some? && From(env, rules, req) && i < |SortStable(req)|
    ensures SortStable(req)[i] in req
    ensures Reached(SortStable(req), i) <==> Exposed(req, SortStable(req)[i])
  {
    SortRuns(req, |rules|);
    SortMember(req, SortStable(req)[i]);
    ReachedIffExposed(SortStable(req), i);
    ExposedInRunOrder(req, SortStable(req)[i]);
  }

  /** The request rules in run order, and the raw rules they come from, agree on which redirects matter. */
  lemma ReachedWellIffAsksWell(env: Env, rules: seq<RawRule>)
    requires CompileAll(env, rules).Some?
    ensures ReachedWell(SortStable(CompileAll(env, rules).value.req)) <==> AsksWell(env, rules)
  {
    var req := CompileAll(env, rules).value.req;
    var sorted := SortStable(req);
    CompiledFrom(env, rules);
    if ReachedWell(sorted) {
      forall i | 0 <= i < |rules| && RawExposed(env, rules, i)
        ensures rules[i].ops[0].status == 0 || Writable(rules[i].ops[0].status)
      {
        RawIsAnswered(env, rules, req, i);
      }
    }
    if AsksWell(env, rules) {
      forall i | 0 <= i < |sorted| && Reached(sorted, i) ensures Writable(sorted[i].body[0].status) {
        ReachedIffRaw(env, rules, req, i);
        ExposedIffRaw(env, rules, req, sorted[i]);
        Origin(env, rules, req, sorted[i]);
      }
    }
  }

  lemma RawIsAnswered(env: Env, rules: seq<RawRule>, req: seq<Rule<seq<ReqOp>>>, i: nat)
    requires CompileAll(env, rules).Some? && From(env, rules, req) && ReachedWell(SortStable(req))
    requires i < |rules| && RawExposed(env, rules, i)
    ensures rules[i].ops[0].status == 0 || Writable(rules[i].ops[0].status)
  {
    var x := Image(env, rules, req, i);
    SortMember(req, x);
    var k :| 0 <= k < |SortStable(req)| && SortStable(req)[k] == x;
    ReachedIffRaw(env, rules, req, k);
    ExposedIffRaw(env, rules, req, x);
    Origin(env, rules, req, x);
    assert Reached(SortStable(req), k);
  }

  lemma DeclsDiffer(env: Env, rules: seq<RawRule>, req: seq<Rule<seq<ReqOp>>>, x: Rule<seq<ReqOp>>,
                    y: Rule<seq<ReqOp>>)
    requires From(env, rules, req) && x in req && y in req && RunsBefore(x, y)
    ensures x.decl != y.decl
  {
    Origin(env, rules, req, x);
    Origin(env, rules, req, y);
  }

  lemma SortedIsDistinct(env: Env, rules: seq<RawRule>, req: seq<Rule<seq<ReqOp>>>, i: nat, j: nat)
    requires From(env, rules, req) && i < j < |SortStable(req)|
    ensures SortStable(req)[i].decl != SortStable(req)[j].decl
  {
    SortRuns(req, |rules|);
    SortMember(req, SortStable(req)[i]);
    SortMember(req, SortStable(req)[j]);
    DeclsDiffer(env, rules, req, SortStable(req)[i], SortStable(req)[j]);
  }

  lemma ParsedIsShaped(env: Env, docs: seq<Document>)
    requires ParseZone(env, docs).Some?
    ensures var z := ParseZone(env, docs).value;
            Shaped(z.req) && forall i | 0 <= i < |z.resp| :: OverridesWell(z.resp[i].body)
  {
    var z, rules := ParseZone(env, docs).value, RulesOf(docs).value;
    ParsedZoneIsSafe(env, docs);
    CompiledFrom(env, rules);
    forall i, k | 0 <= i < |z.req| && 0 <= k < |z.req[i].body| && z.req[i].body[k].Redirect?
      ensures |z.req[i].body| == 1
    {
      assert z.req[i] in z.req && SafeReq(env, z.req[i].body);
    }
    forall i, j | 0 <= i < j < |z.req| ensures z.req[i].decl != z.req[j].decl {
      SortedIsDistinct(env, rules, CompileAll(env, rules).value.req, i, j);
    }
    forall i | 0 <= i < |z.resp| ensures OverridesWell(z.resp[i].body) {
      assert z.resp[i] in z.resp && SafeResp(env, z.resp[i].body);
    }
  }

  /**
   * Exactly when a zone that comes out of its documents emits only statuses that can be written, in every
   * world and for every request: if and only if every redirect that is on, and before which by priority and
   * declaration no unconditional redirect stands, leaves its status out or gives one in range.
   */
  lemma ParsedZoneEmitsWellIff(env: Env, docs: seq<Document>)
    requires ParseZone(env, docs).Some?
    ensures AlwaysEmitsWell(ParseZone(env, docs).value) <==> AsksWell(env, RulesOf(docs).value)
  {
    ParsedIsShaped(env, docs);
    ZoneEmitsWellIff(ParseZone(env, docs).value);
    ReachedWellIffAsksWell(env, RulesOf(docs).value);
  }

  /**
   * The failing inputs: for every status but 0, in range or not, a document with one unfiltered redirect
   * parses, and the zone answers every request with exactly that status.
   */
  lemma RedirectAnswersAsWritten(env: Env, world: World, op: Op, r: Req, uri: string)
    requires op.typ == "redirect" && op.status != 0 && env.trim("") == ""
    ensures var docs := [Document([RawRule("r", "request", "", [op], "", 0)])];
            && ParseZone(env, docs).Some?
            && Serve(world, ParseZone(env, docs).value, r, uri) == Answered(world.expand(op.to, uri), op.status)
  {
    var raw := RawRule("r", "request", "", [op], "", 0);
    var ops := [ReqOp.Redirect(op.to, op.status)];
    AllOfOne(ReqCompiler(env, true), op);
    var rule := Rule(0, "r", 0, None, false, ops);
    assert CompileRule(env, raw, 0) == Some(ReqRule(rule));
    LoneRuleParses(env, raw);
    MaskStops(world, [rule], 0, r, uri);
    LoneRuleServes(world, rule, r, uri);
  }

  lemma LoneRuleServes(world: World, rule: Rule<seq<ReqOp>>, r: Req, uri: string)
    requires Masks(rule)
    ensures RequestPhase(world, [rule], r, uri) == Stop(world.expand(rule.body[0].to, uri), rule.body[0].status)
  {
    assert [rule][..0] == [] && RequestPhase(world, [], r, uri) == Go(r);
    LoneRedirectStops(world, rule, r, uri);
  }
}
