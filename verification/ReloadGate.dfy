/**
 * Reloading compiled configuration, gated by content fingerprints and keeping the last good result
 * (controller_waf.go, controller_transform.go, controller_ratelimit.go).
 */
module ReloadGate {
  import opened Outcomes
  import opened Fingerprint
  import opened ConfigMaps

  /**
   * How a feature compiles documents onto a live instance; None is a rejection. `stamp` is the number from
   * which a pass names the objects it creates. `empty` is the instance before anything was applied.
   */
  datatype Feature<!I> = Feature(
    empty: I,
    applyGlobal: (I, seq<Doc>, nat) -> Option<I>,
    applyZone: (I, seq<Doc>, nat) -> Option<I>,
    registersBad: bool)   // a new zone whose documents are rejected is registered empty, rather than dropped

  /** A live instance and the fingerprint of the documents it was last given successfully. */
  datatype Gate<I> = Gate(live: I, fp: string)

  /** The documents of one pass. */
  datatype Input = Input(global: seq<Doc>, zones: map<Key, seq<Doc>>)

  datatype Registry<I> = Registry(global: Gate<I>, zones: map<Key, Gate<I>>)

  /** What requests see. */
  datatype Live<I> = Live(global: I, zones: map<Key, I>)

  function At<V>(m: map<Key, V>, k: Key): Option<V> {
    if k in m then Some(m[k]) else None
  }

  function GatedGlobal<I>(f: Feature<I>, hash: Hash, g: Gate<I>, docs: seq<Doc>, stamp: nat): Gate<I> {
    var fp := FingerprintOf(hash, docs);
    if fp == g.fp then g
    else
      match f.applyGlobal(g.live, docs, stamp)
      case Some(live) => Gate(live, fp)
      case None => g
  }

  function GatedZone<I>(f: Feature<I>, hash: Hash, cur: Option<Gate<I>>, docs: seq<Doc>, stamp: nat): Option<Gate<I>> {
    var fp := FingerprintOf(hash, docs);
    if cur.Some? && fp == cur.value.fp then cur
    else
      match f.applyZone(if cur.Some? then cur.value.live else f.empty, docs, stamp)
      case Some(live) => Some(Gate(live, fp))
      case None => if cur.Some? then cur else if f.registersBad then Some(Gate(f.empty, "")) else None
  }

  function Pass<I>(f: Feature<I>, hash: Hash, reg: Registry<I>, input: Input, stamp: nat): Registry<I> {
    Registry(GatedGlobal(f, hash, reg.global, input.global, stamp),
             map k | k in input.zones && GatedZone(f, hash, At(reg.zones, k), input.zones[k], stamp).Some? ::
               GatedZone(f, hash, At(reg.zones, k), input.zones[k], stamp).value)
  }

  class Reloader<I> {
    const feature: Feature<I>
    const hash: Hash
    var global: I
    var globalFingerprint: string
    var zones: map<Key, I>
    var zoneFingerprints: map<Key, string>

    ghost predicate Valid()
      reads this
    {
      zones.Keys == zoneFingerprints.Keys
    }

    ghost function View(): Registry<I>
      requires Valid()
      reads this
    {
      Registry(Gate(global, globalFingerprint), map k | k in zones :: Gate(zones[k], zoneFingerprints[k]))
    }

    constructor (feature: Feature<I>, hash: Hash)
      ensures this.feature == feature && this.hash == hash
      ensures Valid() && View() == Registry(Gate(feature.empty, ""), map[])
    {
      this.feature, this.hash := feature, hash;
      global, globalFingerprint, zones, zoneFingerprints := feature.empty, "", map[], map[];
    }

    /** One pass, whatever order the zones are visited in. */
    method Reload(input: Input, stamp: nat)
      requires Valid()
      modifies this
      ensures Valid() && View() == old(Pass(feature, hash, View(), input, stamp))
    {
      ghost var before := View();
      ReloadGlobal(input.global, stamp);
      var newZones, newFingerprints := ReloadZones(input.zones, stamp);
      zones, zoneFingerprints := newZones, newFingerprints;
      assert View().zones == Pass(feature, hash, before, input, stamp).zones;
    }

    method ReloadGlobal(docs: seq<Doc>, stamp: nat)
      requires Valid()
      modifies this`global, this`globalFingerprint
      ensures Gate(global, globalFingerprint) == old(GatedGlobal(feature, hash, View().global, docs, stamp))
    {
      var fp := FingerprintDocs(hash, docs);
      if fp != globalFingerprint {
        match feature.applyGlobal(global, docs, stamp) {
          case None =>
          case Some(live) => global, globalFingerprint := live, fp;
        }
      }
    }

    method ReloadZones(docs: map<Key, seq<Doc>>, stamp: nat)
      returns (newZones: map<Key, I>, newFingerprints: map<Key, string>)
      requires Valid()
      ensures newZones.Keys == newFingerprints.Keys
      ensures forall k :: k in newZones <==>
                          k in docs && GatedZone(feature, hash, At(View().zones, k), docs[k], stamp).Some?
      ensures forall k | k in newZones ::
                && k in docs
                && GatedZone(feature, hash, At(View().zones, k), docs[k], stamp) ==
                   Some(Gate(newZones[k], newFingerprints[k]))
    {
      newZones, newFingerprints := map[], map[];
      ghost var was := View().zones;
      var todo := docs.Keys;
      while todo != {}
        invariant todo <= docs.Keys && newZones.Keys == newFingerprints.Keys
        invariant forall k :: k in newZones <==>
                              k in docs && k !in todo && GatedZone(feature, hash, At(was, k), docs[k], stamp).Some?
        invariant forall k | k in newZones ::
                    GatedZone(feature, hash, At(was, k), docs[k], stamp) == Some(Gate(newZones[k], newFingerprints[k]))
        decreases |todo|
      {
        var k :| k in todo;
        todo := todo - {k};
        var r := ReloadZone(k, docs[k], stamp);
        if r.Some? {
          newZones, newFingerprints := newZones[k := r.value.live], newFingerprints[k := r.value.fp];
        }
      }
    }

    method ReloadZone(k: Key, docs: seq<Doc>, stamp: nat) returns (r: Option<Gate<I>>)
      requires Valid()
      ensures r == GatedZone(feature, hash, At(View().zones, k), docs, stamp)
    {
      var fp := FingerprintDocs(hash, docs);
      var base, reused := feature.empty, false;
      if k in zones {
        base, reused := zones[k], true;
        if fp == zoneFingerprints[k] {
          return Some(Gate(base, fp));
        }
      }
      match feature.applyZone(base, docs, stamp) {
        case Some(live) => return Some(Gate(live, fp));
        case None =>
          if reused {
            return Some(Gate(base, zoneFingerprints[k]));
          }
          return if feature.registersBad then Some(Gate(base, "")) else None;
      }
    }
  }

  // The reference: compile everything on every pass, keeping the last good result.

  function PlainZone<I>(f: Feature<I>, cur: Option<I>, docs: seq<Doc>, stamp: nat): Option<I> {
    match f.applyZone(if cur.Some? then cur.value else f.empty, docs, stamp)
    case Some(live) => Some(live)
    case None => if cur.Some? then cur else if f.registersBad then Some(f.empty) else None
  }

  function PlainPass<I>(f: Feature<I>, l: Live<I>, input: Input, stamp: nat): Live<I> {
    Live(match f.applyGlobal(l.global, input.global, stamp) case Some(live) => live case None => l.global,
         map k | k in input.zones && PlainZone(f, At(l.zones, k), input.zones[k], stamp).Some? ::
           PlainZone(f, At(l.zones, k), input.zones[k], stamp).value)
  }

  function GatedRun<I>(f: Feature<I>, hash: Hash, stamps: nat -> nat, inputs: seq<Input>): Registry<I> {
    if inputs == [] then Registry(Gate(f.empty, ""), map[])
    else
      var n := |inputs| - 1;
      Pass(f, hash, GatedRun(f, hash, stamps, inputs[..n]), inputs[n], stamps(n))
  }

  function PlainRun<I>(f: Feature<I>, stamps: nat -> nat, inputs: seq<Input>): Live<I> {
    if inputs == [] then Live(f.empty, map[])
    else
      var n := |inputs| - 1;
      PlainPass(f, PlainRun(f, stamps, inputs[..n]), inputs[n], stamps(n))
  }

  function Served<I>(reg: Registry<I>): Live<I> {
    Live(reg.global.live, map k | k in reg.zones :: reg.zones[k].live)
  }

  /** Documents that were just accepted are accepted again, without any effect. */
  ghost predicate Settles<I(!new)>(apply: (I, seq<Doc>, nat) -> Option<I>) {
    forall i, j, docs, s, t | apply(i, docs, s) == Some(j) :: apply(j, docs, t) == Some(j)
  }

  ghost predicate Idempotent<I(!new)>(f: Feature<I>) {
    Settles(f.applyGlobal) && Settles(f.applyZone)
  }

  /** A recorded fingerprint is that of documents whose re-application would change nothing. */
  ghost predicate Truthful<I>(apply: (I, seq<Doc>, nat) -> Option<I>, hash: Hash, g: Gate<I>) {
    g.fp != "" ==> exists docs :: Witness(apply, hash, g, docs)
  }

  ghost predicate Witness<I>(apply: (I, seq<Doc>, nat) -> Option<I>, hash: Hash, g: Gate<I>, docs: seq<Doc>) {
    g.fp == FingerprintOf(hash, docs) && forall t :: apply(g.live, docs, t) == Some(g.live)
  }

  /** If the gate skips, applying would have been the identity. */
  lemma SkipIsSafe<I>(apply: (I, seq<Doc>, nat) -> Option<I>, hash: Hash, g: Gate<I>, docs: seq<Doc>, stamp: nat)
    requires Collisionless(hash) && Truthful(apply, hash, g) && g.fp == FingerprintOf(hash, docs)
    ensures apply(g.live, docs, stamp) == Some(g.live)
  {
    FingerprintIsInjective(hash, docs, docs);
    var was :| Witness(apply, hash, g, was);
    FingerprintIsInjective(hash, was, docs);
  }

  lemma GlobalStep<I(!new)>(f: Feature<I>, hash: Hash, g: Gate<I>, docs: seq<Doc>, stamp: nat)
    requires Collisionless(hash) && Settles(f.applyGlobal) && Truthful(f.applyGlobal, hash, g)
    ensures var g' := GatedGlobal(f, hash, g, docs, stamp);
            && Truthful(f.applyGlobal, hash, g')
            && g'.live == match f.applyGlobal(g.live, docs, stamp) case Some(live) => live case None => g.live
  {
    var g' := GatedGlobal(f, hash, g, docs, stamp);
    if g.fp == FingerprintOf(hash, docs) {
      SkipIsSafe(f.applyGlobal, hash, g, docs, stamp);
    } else if f.applyGlobal(g.live, docs, stamp).Some? {
      assert Witness(f.applyGlobal, hash, g', docs);
    }
  }

  lemma ZoneStep<I(!new)>(f: Feature<I>, hash: Hash, cur: Option<Gate<I>>, docs: seq<Doc>, stamp: nat)
    requires Collisionless(hash) && Settles(f.applyZone) && (cur.Some? ==> Truthful(f.applyZone, hash, cur.value))
    ensures var r := GatedZone(f, hash, cur, docs, stamp);
            var p := PlainZone(f, if cur.Some? then Some(cur.value.live) else None, docs, stamp);
            && (r.Some? <==> p.Some?)
            && (r.Some? ==> Truthful(f.applyZone, hash, r.value) && r.value.live == p.value)
  {
    var r := GatedZone(f, hash, cur, docs, stamp);
    if cur.Some? && cur.value.fp == FingerprintOf(hash, docs) {
      SkipIsSafe(f.applyZone, hash, cur.value, docs, stamp);
    } else if f.applyZone(if cur.Some? then cur.value.live else f.empty, docs, stamp).Some? {
      assert Witness(f.applyZone, hash, r.value, docs);
    }
  }

  ghost predicate AllTruthful<I>(f: Feature<I>, hash: Hash, reg: Registry<I>) {
    && Truthful(f.applyGlobal, hash, reg.global)
    && forall k | k in reg.zones :: Truthful(f.applyZone, hash, reg.zones[k])
  }

  lemma PassStep<I(!new)>(f: Feature<I>, hash: Hash, reg: Registry<I>, input: Input, stamp: nat)
    requires Collisionless(hash) && Idempotent(f) && AllTruthful(f, hash, reg)
    ensures AllTruthful(f, hash, Pass(f, hash, reg, input, stamp))
    ensures Served(Pass(f, hash, reg, input, stamp)) == PlainPass(f, Served(reg), input, stamp)
  {
    GlobalStep(f, hash, reg.global, input.global, stamp);
    var next, plain := Pass(f, hash, reg, input, stamp), PlainPass(f, Served(reg), input, stamp);
    forall k | k in input.zones
      ensures k in next.zones <==> k in plain.zones
      ensures k in next.zones ==> Truthful(f.applyZone, hash, next.zones[k]) && next.zones[k].live == plain.zones[k]
    {
      ZoneStep(f, hash, At(reg.zones, k), input.zones[k], stamp);
    }
    assert Served(next).zones == plain.zones;
  }

  /**
   * Skipping is invisible: over every history of passes, each zone's live instance and the global one are
   * exactly what recompiling on every pass with keep-last-good would give, however passes name new objects.
   */
  lemma {:induction false} GatingIsInvisible<I(!new)>(f: Feature<I>, hash: Hash, stamps: nat -> nat, inputs: seq<Input>)
    requires Collisionless(hash) && Idempotent(f)
    ensures Served(GatedRun(f, hash, stamps, inputs)) == PlainRun(f, stamps, inputs)
    ensures AllTruthful(f, hash, GatedRun(f, hash, stamps, inputs))
  {
    if inputs != [] {
      var n := |inputs| - 1;
      GatingIsInvisible(f, hash, stamps, inputs[..n]);
      PassStep(f, hash, GatedRun(f, hash, stamps, inputs[..n]), inputs[n], stamps(n));
    }
  }

  /** Compilation that looks at the documents only. */
  ghost predicate Memoryless<I(!new)>(f: Feature<I>) {
    forall i, j, docs, s, t :: f.applyZone(i, docs, s) == f.applyZone(j, docs, t)
  }

  /** Whether documents are refused depends on them alone; what they become may depend on the live instance. */
  ghost predicate RefusesByDocuments<I(!new)>(f: Feature<I>) {
    forall i, j, docs, s, t :: f.applyZone(i, docs, s).None? <==> f.applyZone(j, docs, t).None?
  }

  predicate Accepted<I>(f: Feature<I>, input: Input, k: Key) {
    k in input.zones && f.applyZone(f.empty, input.zones[k], 0).Some?
  }

  predicate Refused<I>(f: Feature<I>, input: Input, k: Key) {
    k in input.zones && f.applyZone(f.empty, input.zones[k], 0).None?
  }

  /** The instance a pass compiles a zone's documents onto. */
  function Base<I>(f: Feature<I>, l: Live<I>, k: Key): I {
    if k in l.zones then l.zones[k] else f.empty
  }

  /** What is live of a zone at the end is what pass p made of its documents, on what was live then. */
  ghost predicate LastGood<I>(f: Feature<I>, l: Live<I>, before: Live<I>, k: Key, docs: seq<Doc>, stamp: nat) {
    k in l.zones && Some(l.zones[k]) == f.applyZone(Base(f, before, k), docs, stamp)
  }

  lemma {:induction false} PlainServesLastGood<I(!new)>(f: Feature<I>, stamps: nat -> nat, inputs: seq<Input>, k: Key,
                                                        p: nat)
    requires RefusesByDocuments(f) && p < |inputs| && Accepted(f, inputs[p], k)
    requires forall q | p < q < |inputs| :: Refused(f, inputs[q], k)
    ensures LastGood(f, PlainRun(f, stamps, inputs), PlainRun(f, stamps, inputs[..p]), k, inputs[p].zones[k], stamps(p))
  {
    var n := |inputs| - 1;
    var base := Base(f, PlainRun(f, stamps, inputs[..n]), k);
    assert f.applyZone(base, inputs[n].zones[k], stamps(n)).None? <==>
           f.applyZone(f.empty, inputs[n].zones[k], 0).None?;
    if p < n {
      assert inputs[..n][p] == inputs[p] && forall q | p < q < n :: inputs[..n][q] == inputs[q];
      PlainServesLastGood(f, stamps, inputs[..n], k, p);
      assert inputs[..n][..p] == inputs[..p];
    }
  }

  lemma {:induction false} PlainNeverGood<I(!new)>(f: Feature<I>, stamps: nat -> nat, inputs: seq<Input>,
                                                   k: Key, p: nat)
    requires RefusesByDocuments(f) && p < |inputs| && (p > 0 ==> k !in inputs[p - 1].zones)
    requires forall q | p <= q < |inputs| :: Refused(f, inputs[q], k)
    ensures var l := PlainRun(f, stamps, inputs);
            if f.registersBad then k in l.zones && l.zones[k] == f.empty else k !in l.zones
  {
    var n := |inputs| - 1;
    var base := Base(f, PlainRun(f, stamps, inputs[..n]), k);
    assert f.applyZone(base, inputs[n].zones[k], stamps(n)).None? <==>
           f.applyZone(f.empty, inputs[n].zones[k], 0).None?;
    if p < n {
      assert inputs[..n][p] == inputs[p] && forall q | p <= q < n :: inputs[..n][q] == inputs[q];
      assert p > 0 ==> inputs[..n][p - 1] == inputs[p - 1];
      PlainNeverGood(f, stamps, inputs[..n], k, p);
    } else if p > 0 {
      assert inputs[..n][n - 1] == inputs[n - 1];
    }
  }

  lemma GatedIsPlain<I(!new)>(f: Feature<I>, hash: Hash, stamps: nat -> nat, inputs: seq<Input>)
    requires Collisionless(hash) && Idempotent(f)
    ensures Served(GatedRun(f, hash, stamps, inputs)) == PlainRun(f, stamps, inputs)
  {
    GatingIsInvisible(f, hash, stamps, inputs);
  }

  lemma PlainKeepsLastGood<I(!new)>(f: Feature<I>, stamps: nat -> nat, inputs: seq<Input>, k: Key, p: nat)
    requires RefusesByDocuments(f) && p < |inputs| && Accepted(f, inputs[p], k)
    requires forall q | p < q < |inputs| :: Refused(f, inputs[q], k)
    ensures var l, atP := PlainRun(f, stamps, inputs), PlainRun(f, stamps, inputs[..p + 1]);
            k in l.zones && k in atP.zones && l.zones[k] == atP.zones[k]
  {
    PlainServesLastGood(f, stamps, inputs, k, p);
    PlainServesLastGood(f, stamps, inputs[..p + 1], k, p);
    assert inputs[..p + 1][..p] == inputs[..p];
  }

  /**
   * A zone whose edits have all been rejected since pass p still serves exactly what pass p installed: what its
   * documents compiled to on the instance that was live then, with every object that instance handed on.
   */
  lemma ServesLastGood<I(!new)>(f: Feature<I>, hash: Hash, stamps: nat -> nat, inputs: seq<Input>, k: Key, p: nat)
    requires Collisionless(hash) && Idempotent(f) && RefusesByDocuments(f)
    requires p < |inputs| && Accepted(f, inputs[p], k)
    requires forall q | p < q < |inputs| :: Refused(f, inputs[q], k)
    ensures var l := Served(GatedRun(f, hash, stamps, inputs));
            var atP := Served(GatedRun(f, hash, stamps, inputs[..p + 1]));
            k in l.zones && k in atP.zones && l.zones[k] == atP.zones[k]
    ensures LastGood(f, Served(GatedRun(f, hash, stamps, inputs)), Served(GatedRun(f, hash, stamps, inputs[..p])), k,
                     inputs[p].zones[k], stamps(p))
  {
    GatedIsPlain(f, hash, stamps, inputs);
    GatedIsPlain(f, hash, stamps, inputs[..p]);
    GatedIsPlain(f, hash, stamps, inputs[..p + 1]);
    PlainKeepsLastGood(f, stamps, inputs, k, p);
    PlainServesLastGood(f, stamps, inputs, k, p);
  }

  /** A zone without documents in the last pass is gone, whatever was live of it. */
  lemma AbsentZonesAreDropped<I(!new)>(f: Feature<I>, hash: Hash, stamps: nat -> nat, inputs: seq<Input>, k: Key)
    requires inputs != [] && k !in inputs[|inputs| - 1].zones
    ensures k !in Served(GatedRun(f, hash, stamps, inputs)).zones
  {
  }

  ghost predicate RefusesGlobalByDocuments<I(!new)>(f: Feature<I>) {
    forall i, j, docs, s, t :: f.applyGlobal(i, docs, s).None? <==> f.applyGlobal(j, docs, t).None?
  }

  lemma {:induction false} PlainServesLastGoodGlobal<I(!new)>(f: Feature<I>, stamps: nat -> nat, inputs: seq<Input>,
                                                              p: nat)
    requires RefusesGlobalByDocuments(f) && p < |inputs| && f.applyGlobal(f.empty, inputs[p].global, 0).Some?
    requires forall q | p < q < |inputs| :: f.applyGlobal(f.empty, inputs[q].global, 0).None?
    ensures Some(PlainRun(f, stamps, inputs).global) ==
            f.applyGlobal(PlainRun(f, stamps, inputs[..p]).global, inputs[p].global, stamps(p))
  {
    var n := |inputs| - 1;
    assert f.applyGlobal(PlainRun(f, stamps, inputs[..n]).global, inputs[n].global, stamps(n)).None? <==>
           f.applyGlobal(f.empty, inputs[n].global, 0).None?;
    if p < n {
      assert inputs[..n][p] == inputs[p] && forall q | p < q < n :: inputs[..n][q] == inputs[q];
      PlainServesLastGoodGlobal(f, stamps, inputs[..n], p);
      assert inputs[..n][..p] == inputs[..p];
    }
  }

  /** The global set too is what the last accepted pass made of its documents, on what was live then. */
  lemma ServesLastGoodGlobal<I(!new)>(f: Feature<I>, hash: Hash, stamps: nat -> nat, inputs: seq<Input>, p: nat)
    requires Collisionless(hash) && Idempotent(f) && RefusesGlobalByDocuments(f)
    requires p < |inputs| && f.applyGlobal(f.empty, inputs[p].global, 0).Some?
    requires forall q | p < q < |inputs| :: f.applyGlobal(f.empty, inputs[q].global, 0).None?
    ensures Some(Served(GatedRun(f, hash, stamps, inputs)).global) ==
            f.applyGlobal(Served(GatedRun(f, hash, stamps, inputs[..p])).global, inputs[p].global, stamps(p))
  {
    GatedIsPlain(f, hash, stamps, inputs);
    GatedIsPlain(f, hash, stamps, inputs[..p]);
    PlainServesLastGoodGlobal(f, stamps, inputs, p);
  }

  /** A zone that appeared at pass p and has been rejected ever since is empty, or dropped, by feature. */
  lemma NeverGoodIsEmptyOrDropped<I(!new)>(f: Feature<I>, hash: Hash, stamps: nat -> nat, inputs: seq<Input>,
                                           k: Key, p: nat)
    requires Collisionless(hash) && Idempotent(f) && RefusesByDocuments(f)
    requires p < |inputs| && (p > 0 ==> k !in inputs[p - 1].zones)
    requires forall q | p <= q < |inputs| :: Refused(f, inputs[q], k)
    ensures var l := Served(GatedRun(f, hash, stamps, inputs));
            if f.registersBad then k in l.zones && l.zones[k] == f.empty else k !in l.zones
  {
    GatingIsInvisible(f, hash, stamps, inputs);
    PlainNeverGood(f, stamps, inputs, k, p);
  }
}
