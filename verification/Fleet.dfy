/**
 * A CA rotation end to end: what a core that has applied one revision of the CA Secret makes of leaves issued
 * under another (edgecp/ca.go, edgecp/signer.go, trust/trust.go).
 */
module Fleet {
  import opened Outcomes
  import opened Certificates
  import opened CaJobs
  import opened CaProtocol
  import T = TrustManager

  /** Certificates are numbered in the order they were minted; a bundle spans from its first to its last. */
  function Lo(s: Secret): nat
    requires Populated(s)
  {
    Bundle(s)[0].fp
  }

  function Hi(s: Secret): nat
    requires Populated(s)
  {
    Bundle(s)[|Bundle(s)| - 1].fp
  }

  /** From s to a later t: spans move up, additions are newer than all of s, and losses older than all of t. */
  ghost predicate Advances(s: Secret, t: Secret)
    requires Populated(s) && Populated(t)
  {
    && Lo(s) <= Lo(t) && Hi(s) <= Hi(t)
    && (forall c | c in Bundle(t) && c !in Bundle(s) :: c.fp > Hi(s))
    && (forall c | c in Bundle(s) && c !in Bundle(t) :: c.fp < Lo(t))
  }

  lemma WriteAdvances(job: Job, s: Secret, next: Secret, serial: nat)
    requires Good(s, serial) && Writes(job, s, next, serial) && Populated(s) && Populated(next)
    ensures Advances(s, next)
    ensures ActiveCert(s).value in Bundle(next) && ActiveCert(next).value in Bundle(s)
  {
    match job
    case Ensure =>
    case Rotate(_) =>
      var c :| Single(s, c) && Overlap(next, c, Mint(serial)) && next.active == "old";
      Widens(s, next, c, Mint(serial));
    case SetActiveNew(_) =>
      var o, n :| Overlap(s, o, n) && s.active == "old" && Overlap(next, o, n) && next.active == "new";
      OverlapBundle(s, o, n);
      OverlapBundle(next, o, n);
    case Trim(_) =>
      var o, n :| Overlap(s, o, n) && s.active == "new" && Single(next, n);
      Narrows(s, next, o, n);
  }

  lemma Widens(s: Secret, next: Secret, c: Cert, n: Cert)
    requires Single(s, c) && Overlap(next, c, n) && next.active == "old"
    ensures Populated(s) && Populated(next) && Advances(s, next)
    ensures ActiveCert(s) == Some(c) && ActiveCert(next) == Some(c) && c in Bundle(s) && c in Bundle(next)
  {
    SingleBundle(s, c);
    OverlapBundle(next, c, n);
  }

  lemma Narrows(s: Secret, next: Secret, o: Cert, n: Cert)
    requires Overlap(s, o, n) && s.active == "new" && Single(next, n)
    ensures Populated(s) && Populated(next) && Advances(s, next)
    ensures ActiveCert(s) == Some(n) && ActiveCert(next) == Some(n) && n in Bundle(s) && n in Bundle(next)
  {
    OverlapBundle(s, o, n);
    SingleBundle(next, n);
  }

  lemma {:induction false} RevisionsAdvance(revs: seq<Secret>, below: nat, i: nat, k: nat)
    requires Lineage(revs, below) && i <= k < |revs| && Populated(revs[i]) && Populated(revs[k])
    ensures Advances(revs[i], revs[k])
    decreases k
  {
    if i < k {
      PopulatedInBetween(revs, below, i, k);
      RevisionsAdvance(revs, below, i, k - 1);
      assert LinkAt(revs, k - 1);
      var job, serial := LinkedToPopulated(revs[k - 1], revs[k]);
      WriteAdvances(job, revs[k - 1], revs[k], serial);
      AdvancesChain(revs[i], revs[k - 1], revs[k]);
    }
  }

  lemma AdvancesChain(s: Secret, t: Secret, u: Secret)
    requires Populated(s) && Populated(t) && Populated(u) && Advances(s, t) && Advances(t, u)
    ensures Advances(s, u)
  {
  }

  lemma SpanHolds(s: Secret, below: nat, c: Cert)
    requires Good(s, below) && Populated(s) && c in Bundle(s)
    ensures Lo(s) <= c.fp <= Hi(s)
  {
    GoodBundles(s, below);
  }

  /**
   * Who trusts whom, for every two revisions of a run: a core at revision g trusts a certificate of revision h
   * exactly when its number lies within the span of g's bundle. So each certificate is trusted over one
   * unbroken stretch of revisions: once dropped, it never comes back.
   */
  lemma TrustedIffInSpan(revs: seq<Secret>, below: nat, g: nat, h: nat, c: Cert)
    requires Lineage(revs, below) && g < |revs| && h < |revs| && Populated(revs[g]) && Populated(revs[h])
    requires c in Bundle(revs[h])
    ensures c in Bundle(revs[g]) <==> Lo(revs[g]) <= c.fp <= Hi(revs[g])
  {
    assert GoodAt(revs, g, below);
    if c in Bundle(revs[g]) {
      SpanHolds(revs[g], below, c);
    } else if g <= h {
      RevisionsAdvance(revs, below, g, h);
    } else {
      RevisionsAdvance(revs, below, h, g);
    }
  }

  lemma DroppedStaysDropped(revs: seq<Secret>, below: nat, i: nat, j: nat, k: nat, c: Cert)
    requires Lineage(revs, below) && i <= j <= k < |revs|
    requires Populated(revs[i]) && Populated(revs[j]) && Populated(revs[k])
    requires c in Bundle(revs[i]) && c !in Bundle(revs[j])
    ensures c !in Bundle(revs[k])
  {
    RevisionsAdvance(revs, below, i, j);
    RevisionsAdvance(revs, below, j, k);
    assert GoodAt(revs, k, below);
    if c in Bundle(revs[k]) {
      SpanHolds(revs[k], below, c);
    }
  }

  /** One revision of lag either way never severs an edge: neighbours trust each other's active certificate. */
  lemma NeighboursTrustEachOther(start: Secret, minted: nat, steps: seq<Step>, i: nat)
    requires Good(start, minted) && Legal(Start(start, minted), steps)
    requires i + 1 < |Run(Start(start, minted), steps).revisions|
    ensures var revs := Run(Start(start, minted), steps).revisions;
            Populated(revs[i]) && Populated(revs[i + 1]) ==>
              ActiveCert(revs[i]).value in Bundle(revs[i + 1]) && ActiveCert(revs[i + 1]).value in Bundle(revs[i])
  {
    assert GoodAt([start], 0, minted);
    RunInv(Start(start, minted), steps);
    var revs := Run(Start(start, minted), steps).revisions;
    if Populated(revs[i]) && Populated(revs[i + 1]) {
      assert LinkAt(revs, i);
      var job, serial := LinkedToPopulated(revs[i], revs[i + 1]);
      WriteAdvances(job, revs[i], revs[i + 1], serial);
    }
  }

  /** A bundle as a replica serves it: a populated revision, the first included, and its generation. */
  predicate Offered(revs: seq<Secret>, b: T.Bundle) {
    exists r: nat | r < |revs| :: b.gen == GenOf(r) && Populated(revs[r]) && b.pem == revs[r].crt
  }

  ghost predicate AllOffered(revs: seq<Secret>, events: seq<T.Event>) {
    forall i | 0 <= i < |events| && events[i].Poll? && events[i].fetch.Fetched? :: Offered(revs, events[i].fetch.bundle)
  }

  /** The live pool is the bundle of the live generation. */
  predicate PoolIsRevision(revs: seq<Secret>, t: T.Trust) {
    t.pool.Some? ==> 0 < t.gen <= |revs| && Populated(revs[t.gen - 1]) && t.pool == Some(Bundle(revs[t.gen - 1]))
  }

  lemma {:induction false} PoolFollowsRevisions(revs: seq<Secret>, w: T.World, events: seq<T.Event>)
    requires PoolIsRevision(revs, w.trust) && AllOffered(revs, events)
    ensures PoolIsRevision(revs, T.Run(w, events).trust)
  {
    if events != [] {
      PoolFollowsRevisions(revs, w, events[..|events| - 1]);
    }
  }

  /** A live pool at or above the generation of a drop is without the dropped certificate. */
  lemma NewerPoolLacks(revs: seq<Secret>, below: nat, t: T.Trust, i: nat, j: nat, c: Cert)
    requires Lineage(revs, below) && i <= j < |revs| && Populated(revs[i]) && Populated(revs[j])
    requires c in Bundle(revs[i]) && c !in Bundle(revs[j])
    requires PoolIsRevision(revs, t) && t.pool.Some? && GenOf(j) <= t.gen
    ensures c !in t.pool.value
  {
    DroppedStaysDropped(revs, below, i, j, t.gen - 1, c);
  }

  /**
   * Revocation lasts: once a core has persisted a revision from which a certificate was dropped, no sequence
   * of polls of any replicas, however stale, of failed writes and of restarts that keep the floor makes it
   * trust that certificate again.
   */
  lemma RevokedStaysRevoked(revs: seq<Secret>, below: nat, w: T.World, events: seq<T.Event>, i: nat, j: nat, c: Cert)
    requires Lineage(revs, below) && i <= j < |revs| && Populated(revs[i]) && Populated(revs[j])
    requires c in Bundle(revs[i]) && c !in Bundle(revs[j])
    requires T.Inv(w) && T.FloorsKept(w, events) && PoolIsRevision(revs, w.trust) && AllOffered(revs, events)
    requires GenOf(j) <= w.persisted
    ensures var t := T.Run(w, events).trust; t.pool.Some? ==> c !in t.pool.value
  {
    PoolFollowsRevisions(revs, w, events);
    T.LiveIsPersisted(w, events);
    if T.Run(w, events).trust.pool.Some? {
      NewerPoolLacks(revs, below, T.Run(w, events).trust, i, j, c);
    }
  }
}
