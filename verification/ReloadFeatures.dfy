/**
 * The three gated features: WAF rules, transforms and rate limits (controller_waf.go,
 * controller_transform.go, controller_ratelimit.go).
 */
module ReloadFeatures {
  import opened Outcomes
  import opened Fingerprint
  import opened ConfigMaps
  import opened ReloadGate
  import L = LimitSet

  /** WAF: SetRules replaces the whole ruleset or rejects it; a new zone is registered even when rejected. */
  function Waf<R>(noRules: R, compile: seq<Doc> -> Option<R>): Feature<R> {
    Feature(noRules, (live, docs, stamp) => compile(docs), (live, docs, stamp) => compile(docs), true)
  }

  /** Transforms: no global documents drop the global zone to nil, and a new rejected zone is dropped. */
  function Transform<Z>(parse: seq<Doc> -> Option<Z>): Feature<Option<Z>> {
    Feature(None,
            (live, docs, stamp) => if docs == [] then Some(None) else Parsed(parse, docs),
            (live, docs, stamp) => Parsed(parse, docs),
            false)
  }

  function Parsed<Z>(parse: seq<Doc> -> Option<Z>, docs: seq<Doc>): Option<Option<Z>> {
    if parse(docs).Some? then Some(parse(docs)) else None
  }

  /** Rate limits: SetLimits on the existing limiter, so counters can carry over. */
  function RateLimit(env: L.Env, parse: seq<Doc> -> Option<seq<L.Limit>>): Feature<seq<L.Live>> {
    Feature([], (lives, docs, stamp) => Limited(env, parse, lives, docs, stamp),
            (lives, docs, stamp) => Limited(env, parse, lives, docs, stamp), true)
  }

  function Limited(env: L.Env, parse: seq<Doc> -> Option<seq<L.Limit>>, lives: seq<L.Live>, docs: seq<Doc>, stamp: nat)
    : Option<seq<L.Live>>
  {
    match parse(docs)
    case None => None
    case Some(limits) => Set(lives, L.CompileEach(env, limits), stamp)
  }

  function Set(lives: seq<L.Live>, b: L.Batch, stamp: nat): Option<seq<L.Live>> {
    if L.Acceptable(b) then Some(L.Carry(lives, b, stamp)) else None
  }

  lemma WafSkipIsInvisible<R(!new)>(noRules: R, compile: seq<Doc> -> Option<R>, hash: Hash,
                                    stamps: nat -> nat, inputs: seq<Input>)
    requires Collisionless(hash)
    ensures Served(GatedRun(Waf(noRules, compile), hash, stamps, inputs)) ==
            PlainRun(Waf(noRules, compile), stamps, inputs)
    ensures Memoryless(Waf(noRules, compile)) && RefusesByDocuments(Waf(noRules, compile))
  {
    GatingIsInvisible(Waf(noRules, compile), hash, stamps, inputs);
  }

  lemma TransformSkipIsInvisible<Z(!new)>(parse: seq<Doc> -> Option<Z>, hash: Hash,
                                          stamps: nat -> nat, inputs: seq<Input>)
    requires Collisionless(hash)
    ensures Served(GatedRun(Transform(parse), hash, stamps, inputs)) == PlainRun(Transform(parse), stamps, inputs)
    ensures Memoryless(Transform(parse)) && RefusesByDocuments(Transform(parse))
  {
    GatingIsInvisible(Transform(parse), hash, stamps, inputs);
  }

  /** Pass p gave the zone documents that compile, and no later pass did, although each gave it some. */
  predicate GoodLast<R>(compile: seq<Doc> -> Option<R>, inputs: seq<Input>, k: Key, p: nat) {
    && p < |inputs| && k in inputs[p].zones && compile(inputs[p].zones[k]).Some?
    && forall q | p < q < |inputs| :: k in inputs[q].zones && compile(inputs[q].zones[k]).None?
  }

  /** The zone is new at pass p, and its documents have not compiled since. */
  predicate NeverGood<R>(compile: seq<Doc> -> Option<R>, inputs: seq<Input>, k: Key, p: nat) {
    && p < |inputs| && (p > 0 ==> k !in inputs[p - 1].zones)
    && forall q | p <= q < |inputs| :: k in inputs[q].zones && compile(inputs[q].zones[k]).None?
  }

  /** A zone of rules is what its last good documents compile to. */
  lemma WafServesLastGood<R(!new)>(noRules: R, compile: seq<Doc> -> Option<R>, hash: Hash, stamps: nat -> nat,
                                   inputs: seq<Input>, k: Key, p: nat)
    requires Collisionless(hash) && GoodLast(compile, inputs, k, p)
    ensures var l := Served(GatedRun(Waf(noRules, compile), hash, stamps, inputs));
            k in l.zones && Some(l.zones[k]) == compile(inputs[p].zones[k])
  {
    assert forall q | p < q < |inputs| :: Refused(Waf(noRules, compile), inputs[q], k);
    ServesLastGood(Waf(noRules, compile), hash, stamps, inputs, k, p);
  }

  lemma WafNeverGoodIsEmpty<R(!new)>(noRules: R, compile: seq<Doc> -> Option<R>, hash: Hash, stamps: nat -> nat,
                                     inputs: seq<Input>, k: Key, p: nat)
    requires Collisionless(hash) && NeverGood(compile, inputs, k, p)
    ensures var l := Served(GatedRun(Waf(noRules, compile), hash, stamps, inputs));
            k in l.zones && l.zones[k] == noRules
  {
    assert forall q | p <= q < |inputs| :: Refused(Waf(noRules, compile), inputs[q], k);
    NeverGoodIsEmptyOrDropped(Waf(noRules, compile), hash, stamps, inputs, k, p);
  }

  lemma WafServesLastGoodGlobal<R(!new)>(noRules: R, compile: seq<Doc> -> Option<R>, hash: Hash, stamps: nat -> nat,
                                         inputs: seq<Input>, p: nat)
    requires Collisionless(hash) && p < |inputs| && compile(inputs[p].global).Some?
    requires forall q | p < q < |inputs| :: compile(inputs[q].global).None?
    ensures Some(Served(GatedRun(Waf(noRules, compile), hash, stamps, inputs)).global) == compile(inputs[p].global)
  {
    ServesLastGoodGlobal(Waf(noRules, compile), hash, stamps, inputs, p);
  }

  /** The same of transforms, but that a new bad zone is not there at all. */
  lemma TransformServesLastGood<Z(!new)>(parse: seq<Doc> -> Option<Z>, hash: Hash, stamps: nat -> nat,
                                         inputs: seq<Input>, k: Key, p: nat)
    requires Collisionless(hash) && GoodLast(parse, inputs, k, p)
    ensures var l := Served(GatedRun(Transform(parse), hash, stamps, inputs));
            k in l.zones && l.zones[k] == parse(inputs[p].zones[k])
  {
    assert forall q | p < q < |inputs| :: Refused(Transform(parse), inputs[q], k);
    ServesLastGood(Transform(parse), hash, stamps, inputs, k, p);
  }

  lemma TransformNeverGoodIsDropped<Z(!new)>(parse: seq<Doc> -> Option<Z>, hash: Hash, stamps: nat -> nat,
                                             inputs: seq<Input>, k: Key, p: nat)
    requires Collisionless(hash) && NeverGood(parse, inputs, k, p)
    ensures k !in Served(GatedRun(Transform(parse), hash, stamps, inputs)).zones
  {
    assert forall q | p <= q < |inputs| :: Refused(Transform(parse), inputs[q], k);
    NeverGoodIsEmptyOrDropped(Transform(parse), hash, stamps, inputs, k, p);
  }

  lemma TransformServesLastGoodGlobal<Z(!new)>(parse: seq<Doc> -> Option<Z>, hash: Hash, stamps: nat -> nat,
                                               inputs: seq<Input>, p: nat)
    requires Collisionless(hash) && p < |inputs| && inputs[p].global != [] && parse(inputs[p].global).Some?
    requires forall q | p < q < |inputs| :: inputs[q].global != [] && parse(inputs[q].global).None?
    ensures Served(GatedRun(Transform(parse), hash, stamps, inputs)).global == parse(inputs[p].global)
  {
    ServesLastGoodGlobal(Transform(parse), hash, stamps, inputs, p);
  }

  /** Without global documents there is no global zone of transforms. */
  lemma NoGlobalTransformsIsNil<Z(!new)>(parse: seq<Doc> -> Option<Z>, hash: Hash, stamps: nat -> nat,
                                         inputs: seq<Input>)
    requires Collisionless(hash) && inputs != [] && inputs[|inputs| - 1].global == []
    ensures Served(GatedRun(Transform(parse), hash, stamps, inputs)).global == None
  {
    TransformSkipIsInvisible(parse, hash, stamps, inputs);
  }

  lemma SetSettles(lives: seq<L.Live>, b: L.Batch, stamp: nat, again: nat)
    requires Set(lives, b, stamp).Some?
    ensures Set(Set(lives, b, stamp).value, b, again) == Set(lives, b, stamp)
  {
    L.ReapplyIsIdentity(L.State(lives, stamp), b, again);
  }

  /** The parsed limits of a zone's documents, each compiled; None if the documents do not parse. */
  function BatchOf(env: L.Env, parse: seq<Doc> -> Option<seq<L.Limit>>, docs: seq<Doc>): Option<L.Batch> {
    match parse(docs)
    case None => None
    case Some(limits) => Some(L.CompileEach(env, limits))
  }

  predicate GoodLimits(env: L.Env, parse: seq<Doc> -> Option<seq<L.Limit>>, input: Input, k: Key) {
    k in input.zones && GoodBatch(env, parse, input.zones[k])
  }

  /**
   * Rate limits are compiled onto live counters, so that one list of documents gives another live set on every
   * instance; yet whether it is refused depends on it alone, and what was accepted settles.
   */
  lemma RateLimitSettles(env: L.Env, parse: seq<Doc> -> Option<seq<L.Limit>>)
    ensures Idempotent(RateLimit(env, parse)) && RefusesByDocuments(RateLimit(env, parse))
    ensures RefusesGlobalByDocuments(RateLimit(env, parse))
  {
    forall lives, docs, s, t | Limited(env, parse, lives, docs, s).Some?
      ensures var once := Limited(env, parse, lives, docs, s);
              Limited(env, parse, once.value, docs, t) == once
    {
      SetSettles(lives, L.CompileEach(env, parse(docs).value), s, t);
    }
  }

  /**
   * Skipping is just as invisible for rate limits: the live limits, the strategy objects they use and so every
   * counter are those of applying the documents on every pass.
   */
  lemma RateLimitSkipIsInvisible(env: L.Env, parse: seq<Doc> -> Option<seq<L.Limit>>, hash: Hash,
                                 stamps: nat -> nat, inputs: seq<Input>)
    requires Collisionless(hash)
    ensures Served(GatedRun(RateLimit(env, parse), hash, stamps, inputs)) ==
            PlainRun(RateLimit(env, parse), stamps, inputs)
  {
    RateLimitSettles(env, parse);
    GatingIsInvisible(RateLimit(env, parse), hash, stamps, inputs);
  }

  lemma LimitsAreGoodIff(env: L.Env, parse: seq<Doc> -> Option<seq<L.Limit>>, input: Input, k: Key)
    requires k in input.zones
    ensures Accepted(RateLimit(env, parse), input, k) <==> GoodLimits(env, parse, input, k)
    ensures Refused(RateLimit(env, parse), input, k) <==> !GoodLimits(env, parse, input, k)
  {
  }

  /**
   * A zone's limits whose edits have all been rejected since pass p are still those of pass p, with the very
   * strategy objects, and so the counters, that pass p carried over from what was live then or created.
   */
  lemma RateLimitServesLastGood(env: L.Env, parse: seq<Doc> -> Option<seq<L.Limit>>, hash: Hash,
                                stamps: nat -> nat, inputs: seq<Input>, k: Key, p: nat)
    requires Collisionless(hash) && p < |inputs| && GoodLimits(env, parse, inputs[p], k)
    requires forall q | p < q < |inputs| :: k in inputs[q].zones && !GoodLimits(env, parse, inputs[q], k)
    ensures var f := RateLimit(env, parse);
            var l, before := Served(GatedRun(f, hash, stamps, inputs)), Served(GatedRun(f, hash, stamps, inputs[..p]));
            && k in l.zones
            && l.zones[k] == L.Carry(if k in before.zones then before.zones[k] else [],
                                     BatchOf(env, parse, inputs[p].zones[k]).value, stamps(p))
  {
    forall q | p <= q < |inputs|
      ensures if q == p then Accepted(RateLimit(env, parse), inputs[q], k)
              else Refused(RateLimit(env, parse), inputs[q], k)
    {
      LimitsAreGoodIff(env, parse, inputs[q], k);
    }
    RateLimitSettles(env, parse);
    ServesLastGood(RateLimit(env, parse), hash, stamps, inputs, k, p);
  }

  predicate GoodBatch(env: L.Env, parse: seq<Doc> -> Option<seq<L.Limit>>, docs: seq<Doc>) {
    BatchOf(env, parse, docs).Some? && L.Acceptable(BatchOf(env, parse, docs).value)
  }

  lemma GlobalIsGoodIff(env: L.Env, parse: seq<Doc> -> Option<seq<L.Limit>>, docs: seq<Doc>)
    ensures var f := RateLimit(env, parse); f.applyGlobal(f.empty, docs, 0).Some? <==> GoodBatch(env, parse, docs)
  {
  }

  lemma RateLimitServesLastGoodGlobal(env: L.Env, parse: seq<Doc> -> Option<seq<L.Limit>>, hash: Hash,
                                      stamps: nat -> nat, inputs: seq<Input>, p: nat)
    requires Collisionless(hash) && p < |inputs| && GoodBatch(env, parse, inputs[p].global)
    requires forall q | p < q < |inputs| :: !GoodBatch(env, parse, inputs[q].global)
    ensures var f := RateLimit(env, parse);
            Served(GatedRun(f, hash, stamps, inputs)).global ==
            L.Carry(Served(GatedRun(f, hash, stamps, inputs[..p])).global,
                    BatchOf(env, parse, inputs[p].global).value, stamps(p))
  {
    var f := RateLimit(env, parse);
    forall q | p <= q < |inputs|
      ensures f.applyGlobal(f.empty, inputs[q].global, 0).Some? <==> GoodBatch(env, parse, inputs[q].global)
    {
      GlobalIsGoodIff(env, parse, inputs[q].global);
    }
    RateLimitSettles(env, parse);
    ServesLastGoodGlobal(f, hash, stamps, inputs, p);
  }

  /** A zone that appeared at pass p with limits that have been rejected ever since is registered without any. */
  lemma RateLimitNeverGoodIsEmpty(env: L.Env, parse: seq<Doc> -> Option<seq<L.Limit>>, hash: Hash,
                                  stamps: nat -> nat, inputs: seq<Input>, k: Key, p: nat)
    requires Collisionless(hash) && p < |inputs| && (p > 0 ==> k !in inputs[p - 1].zones)
    requires forall q | p <= q < |inputs| :: k in inputs[q].zones && !GoodLimits(env, parse, inputs[q], k)
    ensures var l := Served(GatedRun(RateLimit(env, parse), hash, stamps, inputs));
            k in l.zones && l.zones[k] == []
  {
    forall q | p <= q < |inputs| ensures Refused(RateLimit(env, parse), inputs[q], k) {
      LimitsAreGoodIff(env, parse, inputs[q], k);
    }
    RateLimitSettles(env, parse);
    NeverGoodIsEmptyOrDropped(RateLimit(env, parse), hash, stamps, inputs, k, p);
  }
}
