/** Keeping the served signer level with the CA Secret (edgecp/signerreload.go, edgecp/server.go). */
module SignerReload {
  import opened Outcomes
  import opened Certificates
  import opened CaJobs
  import opened CaProtocol
  import opened Signers

  datatype Served = Served(signer: Signer, gen: nat)

  /** A Secret as a list call returns it; rv is None when the resourceVersion is not a number. */
  datatype Listed = Listed(name: string, secret: Secret, rv: Option<nat>)

  function SignerKey(s: Signer): (CaId, nat) {
    (CaIdOf(s), s.active.fp)
  }

  /** The monotonic floor: a generation at or below the served one is refused. */
  function SetSigner(st: Option<Served>, sg: Signer, gen: nat): Option<Served> {
    if st.Some? && gen <= st.value.gen then st else Some(Served(sg, gen))
  }

  /** A revision that builds no signer, or one of the tuple that is served already, changes nothing. */
  function Offer(st: Option<Served>, cand: Option<Signer>, gen: nat): Option<Served> {
    if cand.None? || (st.Some? && SignerKey(cand.value) == SignerKey(st.value.signer)) then st
    else SetSigner(st, cand.value, gen)
  }

  function Observe(st: Option<Served>, s: Secret, rv: Option<nat>): Option<Served> {
    if rv.None? then st else Offer(st, Candidate(s), rv.value)
  }

  function FirstNamed(secs: seq<Listed>, name: string): Option<Listed> {
    if secs == [] then None
    else if secs[0].name == name then Some(secs[0])
    else FirstNamed(secs[1..], name)
  }

  function Reloaded(st: Option<Served>, secs: seq<Listed>, name: string): Option<Served> {
    match FirstNamed(secs, name)
    case None => st
    case Some(l) => Observe(st, l.secret, l.rv)
  }

  /**
   * A reload reads the first Secret of its name and no other; without one, or if its resource version is no number,
   * it changes nothing.
   */
  lemma {:induction false} ReloadReadsTheFirst(st: Option<Served>, before: seq<Listed>, l: Listed, after: seq<Listed>,
                                               name: string)
    requires forall i | 0 <= i < |before| :: before[i].name != name
    ensures Reloaded(st, before, name) == st
    ensures l.name == name ==>
              && Reloaded(st, before + [l] + after, name) == Observe(st, l.secret, l.rv)
              && (l.rv == None ==> Reloaded(st, before + [l] + after, name) == st)
  {
    var all := before + [l] + after;
    if before == [] {
      assert all[0] == l;
    } else {
      ReloadReadsTheFirst(st, before[1..], l, after, name);
      assert all[1..] == before[1..] + [l] + after;
    }
  }

  class Server {
    var served: Option<Served>
    var genNotify: nat
    var closed: set<nat>

    /** Channels are numbered in order of creation; all but the current one are closed. */
    ghost predicate Valid()
      reads this
    {
      forall c: nat :: c in closed <==> c < genNotify
    }

    constructor ()
      ensures Valid() && served == None
    {
      served, genNotify, closed := None, 0, {};
    }

    method Install(sg: Signer, gen: nat)
      requires Valid()
      modifies this
      ensures Valid() && served == SetSigner(old(served), sg, gen)
      ensures if served == old(served) && old(served).Some? && gen <= old(served).value.gen
              then genNotify == old(genNotify)
              else old(genNotify) in closed && genNotify !in closed
    {
      if served.Some? && gen <= served.value.gen {
        return;
      }
      served := Some(Served(sg, gen));
      closed := closed + {genNotify};
      genNotify := genNotify + 1;
    }

    /** One reload; any failure keeps the last good signer. */
    method Reload(secs: seq<Listed>, name: string)
      requires Valid()
      modifies this
      ensures Valid() && served == Reloaded(old(served), secs, name)
    {
      var i := 0;
      while i < |secs| && secs[i].name != name
        invariant 0 <= i <= |secs|
        invariant FirstNamed(secs, name) == FirstNamed(secs[i..], name)
      {
        i := i + 1;
      }
      if i == |secs| {
        return;
      }
      var sec := secs[i].secret;
      if sec.crt == NoPem || secs[i].rv.None? {
        return;
      }
      var fps := CertBundleFps(sec.crt);
      var key, pin := sec.key, if fps == [] then None else Some(fps[0]);
      if sec.active == "new" {
        key, pin := sec.newKey, if fps == [] then None else Some(fps[|fps| - 1]);
      }
      if key == NoKey {
        return;
      }
      var cand := NewProvidedSignerActive(sec.crt, key, pin);
      if cand.None? {
        return;
      }
      if served.Some? && SignerKey(cand.value) == SignerKey(served.value.signer) {
        return;
      }
      Install(cand.value, secs[i].rv.value);
    }
  }

  // A replica over the revisions of the Secret: built[r] is the signer that revision r builds, if any.

  predicate AllExist(built: seq<Option<Signer>>, seen: seq<nat>) {
    forall i | 0 <= i < |seen| :: seen[i] < |built|
  }

  /** A replica that observes revisions in any order, old ones and repeats included. */
  function Watch(built: seq<Option<Signer>>, seen: seq<nat>): Option<Served>
    requires AllExist(built, seen)
  {
    if seen == [] then None
    else
      var r := seen[|seen| - 1];
      Offer(Watch(built, seen[..|seen| - 1]), built[r], GenOf(r))
  }

  /**
   * Whatever revisions are observed and in whatever order, old ones and repeats included: the served
   * generation never decreases, and every swap strictly raises it.
   */
  lemma {:induction false} ServedGenerationIsMonotone(built: seq<Option<Signer>>, seen: seq<nat>, i: nat)
    requires AllExist(built, seen) && i <= |seen|
    ensures var before, after := Watch(built, seen[..i]), Watch(built, seen);
            before.Some? ==>
              && after.Some? && before.value.gen <= after.value.gen
              && (after != before ==> before.value.gen < after.value.gen)
  {
    if i == |seen| {
      assert seen[..i] == seen;
    } else {
      var init := seen[..|seen| - 1];
      ServedGenerationIsMonotone(built, init, i);
      assert init[..i] == seen[..i];
    }
  }

  /** The newest revision seen that a signer can be built from. */
  function Newest(built: seq<Option<Signer>>, seen: seq<nat>): Option<nat>
    requires AllExist(built, seen)
  {
    if seen == [] then None
    else
      var rest, r := Newest(built, seen[..|seen| - 1]), seen[|seen| - 1];
      if built[r].Some? && (rest.None? || rest.value < r) then Some(r) else rest
  }

  lemma {:induction false} NewestIsNewest(built: seq<Option<Signer>>, seen: seq<nat>)
    requires AllExist(built, seen)
    ensures var n := Newest(built, seen);
            && (n.Some? ==> n.value in seen && built[n.value].Some?)
            && forall i | 0 <= i < |seen| && built[seen[i]].Some? :: n.Some? && seen[i] <= n.value
  {
    if seen != [] {
      var init := seen[..|seen| - 1];
      var n := Newest(built, seen);
      NewestIsNewest(built, init);
      assert seen == init + [seen[|seen| - 1]];
      forall i | 0 <= i < |seen| && built[seen[i]].Some? ensures n.Some? && seen[i] <= n.value {
        if i < |init| {
          assert init[i] == seen[i];
        }
      }
    }
  }

  function KeyAt(built: seq<Option<Signer>>, r: nat): (CaId, nat)
    requires r < |built| && built[r].Some?
  {
    SignerKey(built[r].value)
  }

  /** What is served agrees with revision n, and was installed at a revision no newer than n. */
  ghost predicate Level(built: seq<Option<Signer>>, st: Option<Served>, n: Option<nat>) {
    match (st, n)
    case (None, None) => true
    case (Some(served), Some(r)) =>
      && r < |built| && 0 < served.gen <= GenOf(r)
      && built[served.gen - 1] == Some(served.signer)
      && built[r].Some?
      && SignerKey(served.signer) == KeyAt(built, r)
    case _ => false
  }

  function Newer(built: seq<Option<Signer>>, n: Option<nat>, r: nat): Option<nat>
    requires r < |built|
  {
    if built[r].Some? && (n.None? || n.value < r) then Some(r) else n
  }

  /** A replayed revision above the served generation but below the newest, with another key. */
  predicate StaleSwap(built: seq<Option<Signer>>, st: Option<Served>, n: Option<nat>, r: nat)
    requires r < |built|
  {
    && st.Some? && n.Some? && built[r].Some?
    && st.value.gen < GenOf(r) < GenOf(n.value)
    && SignerKey(st.value.signer) != KeyAt(built, r)
  }

  /** Exactly when one more observation leaves the served signer level with the newest revision seen. */
  lemma LevelExactly(built: seq<Option<Signer>>, st: Option<Served>, n: Option<nat>, r: nat)
    requires r < |built| && Level(built, st, n)
    ensures Level(built, Offer(st, built[r], GenOf(r)), Newer(built, n, r))
            <==> !StaleSwap(built, st, n, r)
  {
  }

  /** Revisions i < j < k of which j carries another tuple than i and k, between which it came back. */
  predicate Recurs(built: seq<Option<Signer>>, i: nat, j: nat, k: nat) {
    && i < j < k < |built|
    && built[i].Some? && built[j].Some? && built[k].Some?
    && KeyAt(built, i) == KeyAt(built, k) && KeyAt(built, j) != KeyAt(built, i)
  }

  /** No (ca_id, active fingerprint) pair comes back once it has been left. */
  ghost predicate NoRecurrence(built: seq<Option<Signer>>) {
    forall i: nat, j: nat, k: nat :: !Recurs(built, i, j, k)
  }

  /** For every order of observations the served signer has the key of the newest buildable revision seen. */
  lemma {:induction false} ServedIsNewest(built: seq<Option<Signer>>, seen: seq<nat>)
    requires NoRecurrence(built) && AllExist(built, seen)
    ensures Level(built, Watch(built, seen), Newest(built, seen))
  {
    if seen != [] {
      var init, r := seen[..|seen| - 1], seen[|seen| - 1];
      ServedIsNewest(built, init);
      var st, n := Watch(built, init), Newest(built, init);
      LevelExactly(built, st, n, r);
      if st.Some? && n.Some? {
        assert !Recurs(built, st.value.gen - 1, r, n.value);
      }
    }
  }

  lemma WatchOneMore(built: seq<Option<Signer>>, seen: seq<nat>, r: nat)
    requires AllExist(built, seen) && r < |built|
    ensures AllExist(built, seen + [r])
    ensures Watch(built, seen + [r]) == Offer(Watch(built, seen), built[r], GenOf(r))
    ensures Newest(built, seen + [r]) == Newer(built, Newest(built, seen), r)
  {
    assert (seen + [r])[..|seen|] == seen;
  }

  /** A replica's run over three observations. */
  lemma WatchThree(built: seq<Option<Signer>>, a: nat, b: nat, c: nat)
    requires a < |built| && b < |built| && c < |built|
    ensures AllExist(built, [a, b, c])
    ensures Watch(built, [a, b, c]) ==
            Offer(Offer(Offer(None, built[a], GenOf(a)), built[b], GenOf(b)), built[c], GenOf(c))
    ensures Newest(built, [a, b, c]) == Newer(built, Newer(built, Newer(built, None, a), b), c)
  {
    WatchOneMore(built, [], a);
    WatchOneMore(built, [] + [a], b);
    WatchOneMore(built, [] + [a] + [b], c);
    assert [] + [a] + [b] + [c] == [a, b, c];
  }

  ghost predicate AlwaysLevel(built: seq<Option<Signer>>) {
    forall seen | AllExist(built, seen) :: Level(built, Watch(built, seen), Newest(built, seen))
  }

  /** A replica that sees the return before the revision in between ends up serving the latter. */
  lemma RecurrenceServesStale(built: seq<Option<Signer>>, i: nat, j: nat, k: nat)
    requires Recurs(built, i, j, k)
    ensures AllExist(built, [i, k, j])
    ensures Watch(built, [i, k, j]) == Some(Served(built[j].value, GenOf(j)))
    ensures Newest(built, [i, k, j]) == Some(k)
  {
    WatchThree(built, i, k, j);
  }

  /**
   * Exactly which sequences of revisions are safe: in every order of observations a replica serves the tuple
   * of the newest buildable revision it has seen, if and only if no tuple comes back once it has been left.
   */
  lemma AlwaysLevelIff(built: seq<Option<Signer>>)
    ensures AlwaysLevel(built) <==> NoRecurrence(built)
  {
    if NoRecurrence(built) {
      forall seen | AllExist(built, seen) ensures Level(built, Watch(built, seen), Newest(built, seen)) {
        ServedIsNewest(built, seen);
      }
    } else {
      var i, j, k :| Recurs(built, i, j, k);
      RecurrenceServesStale(built, i, j, k);
      assert !Level(built, Watch(built, [i, k, j]), Newest(built, [i, k, j]));
    }
  }

  // The revisions that the jobs write.

  function Built(revs: seq<Secret>): seq<Option<Signer>> {
    seq(|revs|, r requires 0 <= r < |revs| => Candidate(revs[r]))
  }

  /** Reloading from a list whose first Secret of the name is revision r is one more observation. */
  lemma ReloadWatches(revs: seq<Secret>, seen: seq<nat>, r: nat, before: seq<Listed>, after: seq<Listed>, name: string)
    requires AllExist(Built(revs), seen) && r < |revs| && forall i | 0 <= i < |before| :: before[i].name != name
    ensures var listed := before + [Listed(name, revs[r], Some(GenOf(r)))] + after;
            AllExist(Built(revs), seen + [r]) &&
            Reloaded(Watch(Built(revs), seen), listed, name) == Watch(Built(revs), seen + [r])
  {
    WatchObserves(revs, seen, r);
    ReloadReadsTheFirst(Watch(Built(revs), seen), before, Listed(name, revs[r], Some(GenOf(r))), after, name);
  }

  /** To watch what revisions build is to observe the revisions. */
  lemma WatchObserves(revs: seq<Secret>, seen: seq<nat>, r: nat)
    requires AllExist(Built(revs), seen) && r < |revs|
    ensures AllExist(Built(revs), seen + [r])
    ensures Watch(Built(revs), seen + [r]) == Observe(Watch(Built(revs), seen), revs[r], Some(GenOf(r)))
  {
    WatchOneMore(Built(revs), seen, r);
  }

  /** Revision r builds a signer exactly when it is populated, and then the one the jobs mean. */
  ghost predicate BuildsWell(revs: seq<Secret>, built: seq<Option<Signer>>, r: nat)
    requires r < |revs| == |built|
  {
    && (built[r].Some? <==> Populated(revs[r]))
    && (built[r].Some? ==>
          && built[r].value.bundle == Bundle(revs[r]) && ActiveCert(revs[r]) == Some(built[r].value.active))
  }

  ghost predicate AllBuildWell(revs: seq<Secret>, built: seq<Option<Signer>>) {
    |revs| == |built| && forall r | 0 <= r < |revs| :: BuildsWell(revs, built, r)
  }

  ghost predicate KeysAreDistinct(built: seq<Option<Signer>>) {
    forall i, k | 0 <= i < k < |built| && built[i].Some? && built[k].Some? :: KeyAt(built, i) != KeyAt(built, k)
  }

  lemma JobsBuildWell(start: Secret, minted: nat, steps: seq<Step>)
    requires Good(start, minted) && Legal(Start(start, minted), steps)
    ensures var revs := Run(Start(start, minted), steps).revisions;
            AllBuildWell(revs, Built(revs)) && KeysAreDistinct(Built(revs))
  {
    var w := Run(Start(start, minted), steps);
    var revs, built := w.revisions, Built(w.revisions);
    assert GoodAt([start], 0, minted);
    RunInv(Start(start, minted), steps);
    forall r | 0 <= r < |revs| ensures BuildsWell(revs, built, r) {
      assert GoodAt(revs, r, w.minted);
      PopulatedBuilds(revs[r], w.minted);
    }
    forall i, k | 0 <= i < k < |revs| && built[i].Some? && built[k].Some? ensures KeyAt(built, i) != KeyAt(built, k) {
      assert BuildsWell(revs, built, i) && BuildsWell(revs, built, k);
      TuplesNeverRecur(start, minted, steps, i, k);
    }
  }

  lemma LevelIsExact(built: seq<Option<Signer>>, seen: seq<nat>)
    requires KeysAreDistinct(built) && AllExist(built, seen)
    ensures var st, n := Watch(built, seen), Newest(built, seen);
            && (st.Some? <==> n.Some?)
            && (st.Some? ==> n.value < |built| && st.value.gen == GenOf(n.value)
                             && built[n.value] == Some(st.value.signer))
  {
    ServedIsNewest(built, seen);
    var st, n := Watch(built, seen), Newest(built, seen);
    if st.Some? {
      assert KeyAt(built, st.value.gen - 1) == KeyAt(built, n.value);
    }
  }

  /** The replica serves the populated revision of its generation: its bundle, and its active certificate. */
  ghost predicate Serves(revs: seq<Secret>, built: seq<Option<Signer>>, served: Served)
    requires |revs| == |built|
  {
    && 0 < served.gen <= |revs| && Populated(revs[served.gen - 1])
    && built[served.gen - 1] == Some(served.signer)
    && served.signer.bundle == Bundle(revs[served.gen - 1])
    && ActiveCert(revs[served.gen - 1]) == Some(served.signer.active)
  }

  /** A replica that has seen a populated revision serves the newest of them, at its generation. */
  ghost predicate ServesNewest(revs: seq<Secret>, built: seq<Option<Signer>>, seen: seq<nat>)
    requires |revs| == |built| && AllExist(built, seen)
  {
    var st := Watch(built, seen);
    && (st.Some? <==> exists i | 0 <= i < |seen| :: Populated(revs[seen[i]]))
    && (st.Some? ==> Serves(revs, built, st.value) && st.value.gen - 1 in seen)
    && (forall i | 0 <= i < |seen| && Populated(revs[seen[i]]) :: GenOf(seen[i]) <= st.value.gen)
  }

  lemma NewestIsServed(revs: seq<Secret>, built: seq<Option<Signer>>, seen: seq<nat>)
    requires AllBuildWell(revs, built) && KeysAreDistinct(built) && AllExist(built, seen)
    ensures ServesNewest(revs, built, seen)
  {
    LevelIsExact(built, seen);
    NewestPopulated(revs, built, seen);
  }

  lemma NewestPopulated(revs: seq<Secret>, built: seq<Option<Signer>>, seen: seq<nat>)
    requires AllBuildWell(revs, built) && AllExist(built, seen)
    ensures var n := Newest(built, seen);
            && (n.Some? <==> exists i | 0 <= i < |seen| :: Populated(revs[seen[i]]))
            && (n.Some? ==> n.value in seen && n.value < |revs| && BuildsWell(revs, built, n.value))
            && (forall i | 0 <= i < |seen| && Populated(revs[seen[i]]) :: seen[i] <= n.value)
  {
    NewestIsNewest(built, seen);
    forall i | 0 <= i < |seen| ensures Populated(revs[seen[i]]) <==> built[seen[i]].Some? {
      assert BuildsWell(revs, built, seen[i]);
    }
  }

  /**
   * End to end: for every run of the CA jobs and every replica, in whatever order it observes the Secret's
   * revisions, the served signer is that of the newest populated revision it has seen, at exactly that
   * generation, and its active certificate is the bundle's own.
   */
  lemma ReplicasServeTheNewestRevision(start: Secret, minted: nat, steps: seq<Step>, seen: seq<nat>)
    requires Good(start, minted) && Legal(Start(start, minted), steps)
    requires AllExist(Built(Run(Start(start, minted), steps).revisions), seen)
    ensures var revs := Run(Start(start, minted), steps).revisions; ServesNewest(revs, Built(revs), seen)
  {
    var revs := Run(Start(start, minted), steps).revisions;
    JobsBuildWell(start, minted, steps);
    NewestIsServed(revs, Built(revs), seen);
  }

  /**
   * Why recurrence matters: if an operator flips the active key back by hand, a replica that missed the
   * flip and later gets it replayed serves the abandoned signer although it has seen the newer revision.
   */
  lemma FlipBackServesStale(o: Cert, n: Cert, s: Secret, t: Secret)
    requires Overlap(s, o, n) && s.active == "old" && t == s.(active := "new")
    ensures var built := Built([s, t, s]);
            && !NoRecurrence(built) && AllExist(built, [0, 2, 1])
            && Newest(built, [0, 2, 1]) == Some(2) && built[2].Some? && built[2].value.active == o
            && Watch(built, [0, 2, 1]).Some? && Watch(built, [0, 2, 1]).value.signer.active == n
  {
    var built := Built([s, t, s]);
    assert Overlap(t, o, n);
    OverlapBuilds(s, o, n);
    OverlapBuilds(t, o, n);
    assert built == [Candidate(s), Candidate(t), Candidate(s)];
    assert Recurs(built, 0, 1, 2);
    RecurrenceServesStale(built, 0, 1, 2);
  }
}
