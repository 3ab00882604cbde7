/**
 * The CA jobs under arbitrary interleaving: any number of jobs, each a GET followed by a compare-and-swap
 * update that lands only if the Secret is still at the revision that was read (edgecp/ca.go).
 */
module CaProtocol {
  import opened Outcomes
  import opened Certificates
  import opened CaJobs

  datatype Outcome =
    | Running
    | Failed                                        // refused, out of attempts, or an API error
    | Returned(crt: PemData, key: KeyPem, at: nat)  // the revision whose content was returned

  datatype Proc = Proc(job: Job, attempt: nat, read: Option<nat>, outcome: Outcome)

  /** The resourceVersion of a revision, which is never zero; replicas take it for the generation they serve. */
  function GenOf(revision: nat): nat {
    revision + 1
  }

  /** Every revision the Secret ever had, the serials minted so far, and the job processes. */
  datatype World = World(revisions: seq<Secret>, minted: nat, procs: map<nat, Proc>)

  datatype Step =
    | Spawn(pid: nat, job: Job)
    | Read(pid: nat)
    | ReadFails(pid: nat)
    | Commit(pid: nat, acked: bool)  // an update may land although its acknowledgement is lost
    | BlankOut                       // an operator or a prune empties a populated Secret

  function Start(s: Secret, minted: nat): World {
    World([s], minted, map[])
  }

  predicate Enabled(w: World, step: Step) {
    && w.revisions != []
    && match step
       case Spawn(pid, _) => pid !in w.procs
       case Read(pid) => pid in w.procs && w.procs[pid].outcome.Running? && w.procs[pid].read.None?
       case ReadFails(pid) => pid in w.procs && w.procs[pid].outcome.Running? && w.procs[pid].read.None?
       case Commit(pid, _) =>
         && pid in w.procs && w.procs[pid].outcome.Running?
         && w.procs[pid].read.Some? && w.procs[pid].read.value < |w.revisions|
       case BlankOut => w.revisions[|w.revisions| - 1].guard.Some?
  }

  function Exec(w: World, step: Step): World
    requires Enabled(w, step)
  {
    var latest := |w.revisions| - 1;
    match step
    case Spawn(pid, job) => w.(procs := w.procs[pid := Proc(job, 0, None, Running)])
    case Read(pid) => w.(procs := w.procs[pid := w.procs[pid].(read := Some(latest))])
    case ReadFails(pid) => w.(procs := w.procs[pid := w.procs[pid].(outcome := Failed)])
    case BlankOut => w.(revisions := w.revisions + [Blank(w.revisions[latest])])
    case Commit(pid, acked) =>
      var p := w.procs[pid];
      Land(w, pid, acked, Decide(p.job, w.revisions[p.read.value], Mint(w.minted)))
  }

  /** The compare-and-swap half of an attempt whose decision is `act`. */
  function Land(w: World, pid: nat, acked: bool, act: Action): World
    requires Enabled(w, Commit(pid, acked))
  {
    var p, latest := w.procs[pid], |w.revisions| - 1;
    var r := p.read.value;
    match act
    case Refuse => w.(minted := w.minted + 1, procs := w.procs[pid := p.(outcome := Failed)])
    case Return(crt, key) =>
      w.(minted := w.minted + 1, procs := w.procs[pid := p.(outcome := Returned(crt, key, r))])
    case Propose(next) =>
      if r == latest then
        var outcome := if acked then Returned(next.crt, next.key, latest + 1) else Failed;
        World(w.revisions + [next], w.minted + 1, w.procs[pid := p.(outcome := outcome)])
      else
        var outcome := if p.attempt + 1 == MAX_ATTEMPTS then Failed else Running;
        w.(minted := w.minted + 1,
           procs := w.procs[pid := p.(attempt := p.attempt + 1, read := None, outcome := outcome)])
  }

  predicate Legal(w: World, steps: seq<Step>)
    decreases |steps|, 0
  {
    steps == [] ||
    var rest := steps[..|steps| - 1];
    Legal(w, rest) && Enabled(Run(w, rest), steps[|steps| - 1])
  }

  function Run(w: World, steps: seq<Step>): World
    requires Legal(w, steps)
    decreases |steps|, 1
  {
    if steps == [] then w else Exec(Run(w, steps[..|steps| - 1]), steps[|steps| - 1])
  }

  /** One revision follows another by a job's write, or by blanking. */
  ghost predicate Linked(s: Secret, next: Secret) {
    || (exists job, serial :: Good(s, serial) && Writes(job, s, next, serial))
    || (s.guard.Some? && next == Blank(s))
  }

  ghost predicate LinkAt(revisions: seq<Secret>, i: nat)
    requires i + 1 < |revisions|
  {
    Linked(revisions[i], revisions[i + 1])
  }

  ghost predicate GoodAt(revisions: seq<Secret>, i: nat, below: nat)
    requires i < |revisions|
  {
    Good(revisions[i], below)
  }

  ghost predicate Lineage(revisions: seq<Secret>, below: nat) {
    && (forall i | 0 <= i < |revisions| :: GoodAt(revisions, i, below))
    && (forall i | 0 <= i < |revisions| - 1 :: LinkAt(revisions, i))
  }

  ghost predicate ProcInv(w: World, p: Proc) {
    && p.attempt <= MAX_ATTEMPTS
    && (p.outcome.Running? ==> p.attempt < MAX_ATTEMPTS)
    && (p.read.Some? ==> p.read.value < |w.revisions|)
    && (p.outcome.Returned? ==>
          && p.outcome.at < |w.revisions|
          && p.outcome.crt == w.revisions[p.outcome.at].crt
          && p.outcome.key == w.revisions[p.outcome.at].key
          && (p.job.Ensure? ==> ValidPair(p.outcome.crt, p.outcome.key)))
  }

  ghost predicate Inv(w: World) {
    && w.revisions != []
    && Lineage(w.revisions, w.minted)
    && forall pid | pid in w.procs :: ProcInv(w, w.procs[pid])
  }

  lemma GoodIsMonotone(s: Secret, a: nat, b: nat)
    requires Good(s, a) && a <= b
    ensures Good(s, b)
  {
    if c :| Single(s, c) && Fresh(c, a) {
      assert Fresh(c, b);
    } else if o, n :| Overlap(s, o, n) && Fresh(o, a) && Fresh(n, a) {
      assert Fresh(o, b) && Fresh(n, b);
    }
  }

  lemma LineageBump(revisions: seq<Secret>, below: nat)
    requires Lineage(revisions, below)
    ensures Lineage(revisions, below + 1)
  {
    var limit := below + 1;
    forall i | 0 <= i < |revisions| ensures GoodAt(revisions, i, limit) {
      assert GoodAt(revisions, i, below);
      GoodIsMonotone(revisions[i], below, limit);
    }
  }

  lemma LineageAppend(revisions: seq<Secret>, below: nat, next: Secret)
    requires revisions != [] && Lineage(revisions, below)
    requires Good(next, below) && Linked(revisions[|revisions| - 1], next)
    ensures Lineage(revisions + [next], below)
  {
    var grown := revisions + [next];
    forall i | 0 <= i < |grown| ensures GoodAt(grown, i, below) {
      assert i < |revisions| ==> grown[i] == revisions[i] && GoodAt(revisions, i, below);
    }
    forall i | 0 <= i < |grown| - 1 ensures LinkAt(grown, i) {
      assert grown[i] == revisions[i];
      assert i + 1 < |revisions| ==> grown[i + 1] == revisions[i + 1] && LinkAt(revisions, i);
    }
  }

  lemma LineageExtends(revisions: seq<Secret>, below: nat, job: Job)
    requires revisions != [] && Lineage(revisions, below)
    requires Decide(job, revisions[|revisions| - 1], Mint(below)).Propose?
    ensures Lineage(revisions + [Decide(job, revisions[|revisions| - 1], Mint(below)).next], below + 1)
  {
    var s := revisions[|revisions| - 1];
    var next := Decide(job, s, Mint(below)).next;
    assert GoodAt(revisions, |revisions| - 1, below);
    OnlyTheseWrites(job, s, below);
    assert Linked(s, next);
    LineageBump(revisions, below);
    LineageAppend(revisions, below + 1, next);
  }

  lemma EnsureReturnsAPair(job: Job, s: Secret, serial: nat)
    requires job.Ensure?
    ensures match Decide(job, s, Mint(serial))
            case Refuse => true
            case Return(crt, key) => ValidPair(crt, key)
            case Propose(next) => ValidPair(next.crt, next.key)
  {
    EncodedPair(Mint(serial), Mint(serial));
  }

  lemma LandKeepsInv(w: World, pid: nat, acked: bool, act: Action)
    requires Inv(w) && Enabled(w, Commit(pid, acked))
    requires var p := w.procs[pid];
             var s := w.revisions[p.read.value];
             match act
             case Refuse => true
             case Return(crt, key) => crt == s.crt && key == s.key && (p.job.Ensure? ==> ValidPair(crt, key))
             case Propose(next) =>
               && (p.job.Ensure? ==> ValidPair(next.crt, next.key))
               && (p.read.value == |w.revisions| - 1 ==> Lineage(w.revisions + [next], w.minted + 1))
    ensures Inv(Land(w, pid, acked, act))
  {
    var w' := Land(w, pid, acked, act);
    LineageBump(w.revisions, w.minted);
    forall q | q in w'.procs ensures ProcInv(w', w'.procs[q]) {
      assert ProcInv(w, w.procs[q]);
    }
  }

  lemma CommitKeepsInv(w: World, pid: nat, acked: bool)
    requires Inv(w) && Enabled(w, Commit(pid, acked))
    ensures Inv(Exec(w, Commit(pid, acked)))
  {
    var p := w.procs[pid];
    var s := w.revisions[p.read.value];
    var act := Decide(p.job, s, Mint(w.minted));
    if p.job.Ensure? {
      EnsureReturnsAPair(p.job, s, w.minted);
    }
    if act.Return? {
      ReturnsWhatItRead(p.job, s, w.minted);
    }
    if act.Propose? && p.read.value == |w.revisions| - 1 {
      LineageExtends(w.revisions, w.minted, p.job);
    }
    LandKeepsInv(w, pid, acked, act);
  }

  /** A write that comes too late changes nothing and is decided anew, from a new read, until the fifth. */
  lemma FifthConflictFails(w: World, pid: nat, acked: bool)
    requires Enabled(w, Commit(pid, acked)) && w.procs[pid].read.value < |w.revisions| - 1
    requires Decide(w.procs[pid].job, w.revisions[w.procs[pid].read.value], Mint(w.minted)).Propose?
    ensures var p, w' := w.procs[pid], Exec(w, Commit(pid, acked));
            && w'.revisions == w.revisions
            && w'.procs[pid] == Proc(p.job, p.attempt + 1, None, if p.attempt == 4 then Failed else Running)
  {
  }

  lemma ReturnsWhatItRead(job: Job, s: Secret, serial: nat)
    requires Decide(job, s, Mint(serial)).Return?
    ensures Decide(job, s, Mint(serial)) == Return(s.crt, s.key)
  {
  }

  lemma StepKeepsInv(w: World, step: Step)
    requires Inv(w) && Enabled(w, step)
    ensures Inv(Exec(w, step))
  {
    var w' := Exec(w, step);
    match step
    case Commit(pid, acked) => CommitKeepsInv(w, pid, acked);
    case BlankOut =>
      assert GoodAt(w.revisions, |w.revisions| - 1, w.minted);
      LineageAppend(w.revisions, w.minted, Blank(w.revisions[|w.revisions| - 1]));
      forall q | q in w'.procs ensures ProcInv(w', w'.procs[q]) {
        assert ProcInv(w, w.procs[q]);
      }
    case _ =>
      forall q | q in w'.procs && q in w.procs ensures ProcInv(w', w'.procs[q]) {
        assert ProcInv(w, w.procs[q]);
      }
  }

  lemma {:induction false} RunInv(w: World, steps: seq<Step>)
    requires Inv(w) && Legal(w, steps)
    ensures Inv(Run(w, steps))
  {
    if steps != [] {
      var rest := steps[..|steps| - 1];
      RunInv(w, rest);
      StepKeepsInv(Run(w, rest), steps[|steps| - 1]);
    }
  }

  function Bundle(s: Secret): seq<Cert> {
    var certs := Certs(Blocks(s.crt));
    if certs.None? then [] else certs.value
  }

  /** The certificate whose key signs new leaves: the last one while active is "new", else the first. */
  function ActiveCert(s: Secret): Option<Cert> {
    var certs := Bundle(s);
    if certs == [] then None
    else if s.active == "new" then Some(certs[|certs| - 1])
    else Some(certs[0])
  }

  /** What a well-shaped Secret is, in the terms of its fields. */
  ghost predicate Sane(s: Secret) {
    && Certs(Blocks(s.crt)).Some?
    && |Bundle(s)| <= 2
    && (s.crt != NoPem ==> ValidPair(s.crt, s.key) && s.guard == Some(IdOf(Bundle(s))))
    && (|Bundle(s)| == 2 ==> s.phase == "overlap" && ValidPair(Encode([Bundle(s)[1]]), s.newKey))
    && (s.active == "new" && s.crt != NoPem ==> |Bundle(s)| == 2)
  }

  lemma GoodIsSane(s: Secret, below: nat)
    requires Good(s, below)
    ensures Sane(s)
  {
    if c :| Single(s, c) {
      EncodedPair(c, c);
    } else if o, n :| Overlap(s, o, n) {
      EncodedPair(o, n);
      EncodedPair(n, n);
    }
  }

  /**
   * Under every interleaving every revision is virgin, single, overlapping, trimmed or blanked: at most
   * two certificates, tls.key matching the first, a staged key matching the second, a current guard.
   */
  lemma EveryRevisionIsSane(start: Secret, minted: nat, steps: seq<Step>)
    requires Good(start, minted) && Legal(Start(start, minted), steps)
    ensures forall i | 0 <= i < |Run(Start(start, minted), steps).revisions| ::
              Sane(Run(Start(start, minted), steps).revisions[i])
  {
    RunInv(Start(start, minted), steps);
    var w := Run(Start(start, minted), steps);
    forall i | 0 <= i < |w.revisions| ensures Sane(w.revisions[i]) {
      assert GoodAt(w.revisions, i, w.minted);
      GoodIsSane(w.revisions[i], w.minted);
    }
  }

  lemma LinkedToPopulated(s: Secret, next: Secret) returns (job: Job, serial: nat)
    requires Linked(s, next) && next.crt != NoPem
    ensures Good(s, serial) && Writes(job, s, next, serial)
  {
    job, serial :| Good(s, serial) && Writes(job, s, next, serial);
  }

  lemma LinkedFromBlanked(s: Secret, next: Secret)
    requires Linked(s, next) && Blanked(s)
    ensures Blanked(next)
  {
  }

  lemma PopulatedHasGuard(s: Secret, below: nat)
    requires Good(s, below) && s.crt != NoPem
    ensures s.guard.Some?
  {
  }

  /** Once set the guard is never blank again, so the step from virgin to populated happens at most once. */
  lemma {:induction false} GuardStays(revisions: seq<Secret>, below: nat, i: nat, k: nat)
    requires Lineage(revisions, below) && i <= k < |revisions| && revisions[i].guard.Some?
    ensures revisions[k].guard.Some? && !Virgin(revisions[k])
  {
    if i < k {
      GuardStays(revisions, below, i, k - 1);
      assert LinkAt(revisions, k - 1);
    }
  }

  lemma PopulatedAtMostOnce(revisions: seq<Secret>, below: nat, i: nat, k: nat)
    requires Lineage(revisions, below) && i <= k && k + 1 < |revisions|
    requires Virgin(revisions[i]) && !Virgin(revisions[i + 1])
    requires Virgin(revisions[k]) && !Virgin(revisions[k + 1])
    ensures i == k
  {
    if i < k {
      assert LinkAt(revisions, i);
      GuardStays(revisions, below, i + 1, k);
    }
  }

  lemma SingleBundle(s: Secret, c: Cert)
    requires Single(s, c)
    ensures Bundle(s) == [c] && ActiveCert(s) == Some(c)
  {
    EncodedPair(c, c);
  }

  lemma OverlapBundle(s: Secret, o: Cert, n: Cert)
    requires Overlap(s, o, n)
    ensures Bundle(s) == [o, n] && ActiveCert(s) == Some(if s.active == "new" then n else o)
  {
    EncodedPair(o, n);
  }

  /**
   * No write orphans the signer: the certificate that was active just before it is in the bundle just
   * after it. Only Trim drops a certificate, and it leaves exactly the pinned new one with its own key.
   */
  lemma WritesKeepTheSigner(job: Job, s: Secret, next: Secret, serial: nat)
    requires Writes(job, s, next, serial)
    ensures ActiveCert(s).Some? ==> ActiveCert(s).value in Bundle(next)
    ensures !job.Trim? ==> forall c | c in Bundle(s) :: c in Bundle(next)
    ensures job.Trim? ==>
              && |Bundle(s)| == 2 && Bundle(next) == [Bundle(s)[1]]
              && job.expected == Some(Bundle(s)[1].fp)
              && next.key == Key(Bundle(s)[1].pub) && next.newKey == NoKey
  {
    match job
    case Ensure => SingleBundle(next, Mint(serial));
    case Rotate(_) =>
      var c :| Single(s, c) && Overlap(next, c, Mint(serial));
      SingleBundle(s, c);
      OverlapBundle(next, c, Mint(serial));
    case SetActiveNew(_) =>
      var o, n :| Overlap(s, o, n) && s.active == "old" && Overlap(next, o, n) && next.active == "new";
      OverlapBundle(s, o, n);
      OverlapBundle(next, o, n);
    case Trim(_) =>
      var o, n :| Overlap(s, o, n) && s.active == "new" && Single(next, n) && job.expected == Some(n.fp);
      OverlapBundle(s, o, n);
      SingleBundle(next, n);
  }

  /**
   * Over every run: a populated successor revision still holds the certificate that was active before it, and
   * if it lacks any certificate it was trimmed: exactly the new one is left, the active one, with its own key.
   */
  lemma SignerIsNeverOrphaned(start: Secret, minted: nat, steps: seq<Step>, i: nat)
    requires Good(start, minted) && Legal(Start(start, minted), steps)
    requires i + 1 < |Run(Start(start, minted), steps).revisions|
    ensures var revs := Run(Start(start, minted), steps).revisions;
            revs[i + 1].crt != NoPem ==>
              && (ActiveCert(revs[i]).Some? ==> ActiveCert(revs[i]).value in Bundle(revs[i + 1]))
              && ((exists c :: c in Bundle(revs[i]) && c !in Bundle(revs[i + 1])) ==> Trimmed(revs[i], revs[i + 1]))
  {
    RunInv(Start(start, minted), steps);
    var revs := Run(Start(start, minted), steps).revisions;
    if revs[i + 1].crt != NoPem {
      assert LinkAt(revs, i);
      var job, serial := LinkedToPopulated(revs[i], revs[i + 1]);
      WritesKeepTheSigner(job, revs[i], revs[i + 1], serial);
      if job.Trim? {
        TrimLeavesTheActive(job, revs[i], revs[i + 1], serial);
      }
    }
  }

  /** Only the last of two certificates is left: the one that was active, which the trim was pinned to. */
  ghost predicate Trimmed(s: Secret, next: Secret) {
    && |Bundle(s)| == 2 && ActiveCert(s) == Some(Bundle(s)[1]) && Bundle(next) == [Bundle(s)[1]]
    && next.key == Key(Bundle(s)[1].pub) && next.newKey == NoKey
    && exists serial :: Writes(Trim(Some(Bundle(s)[1].fp)), s, next, serial)
  }

  lemma TrimLeavesTheActive(job: Job, s: Secret, next: Secret, serial: nat)
    requires job.Trim? && Writes(job, s, next, serial)
    ensures Trimmed(s, next)
  {
    WritesKeepTheSigner(job, s, next, serial);
    var o, n :| Overlap(s, o, n) && s.active == "new" && Single(next, n) && job.expected == Some(n.fp);
    OverlapBundle(s, o, n);
    assert Writes(Trim(Some(n.fp)), s, next, serial);
  }

  /** The revisions up to k hold no rotation. */
  ghost predicate Unrotated(revisions: seq<Secret>, k: nat)
    requires k < |revisions|
  {
    forall i | 0 <= i <= k :: |Bundle(revisions[i])| < 2
  }

  lemma OneCaBeforeRotation(revisions: seq<Secret>, below: nat, i: nat, k: nat)
    requires Lineage(revisions, below) && i <= k < |revisions| && Unrotated(revisions, k)
    requires revisions[i].crt != NoPem && revisions[k].crt != NoPem
    ensures revisions[k] == revisions[i]
  {
    if i < k {
      var s := revisions[k - 1];
      assert LinkAt(revisions, k - 1);
      var job, serial := LinkedToPopulated(s, revisions[k]);
      OnlyEnsureBeforeRotation(job, s, revisions[k], serial);
      assert GoodAt(revisions, i, below);
      PopulatedHasGuard(revisions[i], below);
      GuardStays(revisions, below, i, k - 1);
    }
  }

  lemma OnlyEnsureBeforeRotation(job: Job, s: Secret, next: Secret, serial: nat)
    requires Writes(job, s, next, serial) && |Bundle(s)| < 2 && |Bundle(next)| < 2
    ensures job.Ensure? && Virgin(s)
  {
    match job
    case Ensure =>
    case Rotate(_) =>
      var c :| Single(s, c) && Overlap(next, c, Mint(serial));
      OverlapBundle(next, c, Mint(serial));
    case SetActiveNew(_) =>
      var o, n :| Overlap(s, o, n) && Overlap(next, o, n);
      OverlapBundle(s, o, n);
    case Trim(_) =>
      var o, n :| Overlap(s, o, n) && Single(next, n);
      OverlapBundle(s, o, n);
  }

  /** Bootstrappers that return the content of a revision before any rotation all return one CA. */
  lemma BootstrappersAgree(start: Secret, minted: nat, steps: seq<Step>, a: nat, b: nat)
    requires Good(start, minted) && Legal(Start(start, minted), steps)
    requires var w := Run(Start(start, minted), steps);
             && a in w.procs && b in w.procs && w.procs[a].job.Ensure? && w.procs[b].job.Ensure?
             && w.procs[a].outcome.Returned? && w.procs[b].outcome.Returned?
             && w.procs[a].outcome.at <= w.procs[b].outcome.at < |w.revisions|
             && Unrotated(w.revisions, w.procs[b].outcome.at)
    ensures var w := Run(Start(start, minted), steps);
            && w.procs[a].outcome.crt == w.procs[b].outcome.crt
            && w.procs[a].outcome.key == w.procs[b].outcome.key
            && ValidPair(w.procs[a].outcome.crt, w.procs[a].outcome.key)
  {
    RunInv(Start(start, minted), steps);
    var w := Run(Start(start, minted), steps);
    assert ProcInv(w, w.procs[a]) && ProcInv(w, w.procs[b]);
    OneCaBeforeRotation(w.revisions, w.minted, w.procs[a].outcome.at, w.procs[b].outcome.at);
  }

  // The signer tuple (ca_id, active fingerprint) of a revision never recurs.

  function Tuple(s: Secret): (CaId, Option<nat>) {
    (IdOf(Bundle(s)), if ActiveCert(s).None? then None else Some(ActiveCert(s).value.fp))
  }

  predicate Populated(s: Secret) {
    s.crt != NoPem && Bundle(s) != []
  }

  /** Newest certificate, then how far its rotation has come: the tuple determines this rank. */
  function Rank(s: Secret): (nat, nat)
    requires Populated(s)
  {
    var certs := Bundle(s);
    (certs[|certs| - 1].fp, if |certs| == 1 then 2 else if s.active == "new" then 1 else 0)
  }

  predicate RankLess(a: (nat, nat), b: (nat, nat)) {
    a.0 < b.0 || (a.0 == b.0 && a.1 < b.1)
  }

  lemma SameTupleSameRank(s: Secret, t: Secret, below: nat)
    requires Good(s, below) && Good(t, below) && Populated(s) && Populated(t) && Tuple(s) == Tuple(t)
    ensures Rank(s) == Rank(t)
  {
    GoodBundles(s, below);
    GoodBundles(t, below);
    var a, b := FpsOf(Bundle(s)), FpsOf(Bundle(t));
    assert |multiset(a)| == |a| && |multiset(b)| == |b|;
    assert a[|a| - 1] in multiset(b) && b[|b| - 1] in multiset(a);
  }

  lemma GoodBundles(s: Secret, below: nat)
    requires Good(s, below) && Bundle(s) != []
    ensures s.crt != NoPem && 1 <= |Bundle(s)| <= 2
    ensures |Bundle(s)| == 2 ==> Bundle(s)[0].fp < Bundle(s)[1].fp
    ensures |Bundle(s)| == 1 ==> s.active != "new"
  {
    if c :| Single(s, c) {
      SingleBundle(s, c);
    } else if o, n :| Overlap(s, o, n) {
      OverlapBundle(s, o, n);
    }
  }

  lemma WritesRaiseRank(job: Job, s: Secret, next: Secret, serial: nat)
    requires Good(s, serial) && Writes(job, s, next, serial)
    ensures Populated(next) && (Populated(s) ==> RankLess(Rank(s), Rank(next)))
  {
    match job
    case Ensure => SingleBundle(next, Mint(serial));
    case Rotate(_) =>
      var c :| Single(s, c) && Overlap(next, c, Mint(serial)) && next.active == "old";
      SingleBundle(s, c);
      OverlapBundle(next, c, Mint(serial));
    case SetActiveNew(_) =>
      var o, n :| Overlap(s, o, n) && s.active == "old" && Overlap(next, o, n) && next.active == "new";
      OverlapBundle(s, o, n);
      OverlapBundle(next, o, n);
    case Trim(_) =>
      var o, n :| Overlap(s, o, n) && s.active == "new" && Single(next, n);
      OverlapBundle(s, o, n);
      SingleBundle(next, n);
  }

  /** Nothing populated follows a blanked revision. */
  lemma {:induction false} BlankedStays(revisions: seq<Secret>, below: nat, i: nat, k: nat)
    requires Lineage(revisions, below) && i <= k < |revisions| && Blanked(revisions[i])
    ensures Blanked(revisions[k])
  {
    if i < k {
      BlankedStays(revisions, below, i, k - 1);
      assert LinkAt(revisions, k - 1);
      LinkedFromBlanked(revisions[k - 1], revisions[k]);
    }
  }

  lemma LastWriteRaisesRank(revisions: seq<Secret>, below: nat, k: nat)
    requires Lineage(revisions, below) && 0 < k < |revisions| && Populated(revisions[k])
    requires Populated(revisions[k - 1])
    ensures RankLess(Rank(revisions[k - 1]), Rank(revisions[k]))
  {
    assert LinkAt(revisions, k - 1);
    var job, serial := LinkedToPopulated(revisions[k - 1], revisions[k]);
    WritesRaiseRank(job, revisions[k - 1], revisions[k], serial);
  }

  /** A bundle that was emptied after it had been populated stays empty. */
  lemma EmptyStaysEmpty(revisions: seq<Secret>, below: nat, i: nat, k: nat)
    requires Lineage(revisions, below) && i < k < |revisions|
    requires Populated(revisions[i]) && Bundle(revisions[k - 1]) == []
    ensures !Populated(revisions[k])
  {
    assert GoodAt(revisions, i, below) && GoodAt(revisions, k - 1, below);
    PopulatedHasGuard(revisions[i], below);
    GuardStays(revisions, below, i, k - 1);
    EmptyBundleIsVirginOrBlanked(revisions[k - 1], below);
    BlankedStays(revisions, below, k - 1, k);
  }

  lemma BundleIsPopulated(s: Secret)
    ensures Populated(s) <==> Bundle(s) != []
  {
  }

  lemma PopulatedInBetween(revisions: seq<Secret>, below: nat, i: nat, k: nat)
    requires Lineage(revisions, below) && i < k < |revisions|
    requires Populated(revisions[i]) && Populated(revisions[k])
    ensures Populated(revisions[k - 1])
  {
    BundleIsPopulated(revisions[k - 1]);
    if Bundle(revisions[k - 1]) == [] {
      EmptyStaysEmpty(revisions, below, i, k);
    }
  }

  lemma {:induction false} RanksAscend(revisions: seq<Secret>, below: nat, i: nat, k: nat)
    requires Lineage(revisions, below) && i < k < |revisions|
    requires Populated(revisions[i]) && Populated(revisions[k])
    ensures RankLess(Rank(revisions[i]), Rank(revisions[k]))
    decreases k
  {
    PopulatedInBetween(revisions, below, i, k);
    LastWriteRaisesRank(revisions, below, k);
    if i < k - 1 {
      RanksAscend(revisions, below, i, k - 1);
    }
  }

  lemma EmptyBundleIsVirginOrBlanked(s: Secret, below: nat)
    requires Good(s, below) && Bundle(s) == []
    ensures Virgin(s) || Blanked(s)
  {
    if c :| Single(s, c) {
      SingleBundle(s, c);
    } else if o, n :| Overlap(s, o, n) {
      OverlapBundle(s, o, n);
    }
  }

  /** Over every run, two populated revisions of the Secret never share a (ca_id, active fingerprint) tuple. */
  lemma TuplesNeverRecur(start: Secret, minted: nat, steps: seq<Step>, i: nat, k: nat)
    requires Good(start, minted) && Legal(Start(start, minted), steps)
    requires i < k < |Run(Start(start, minted), steps).revisions|
    requires var revs := Run(Start(start, minted), steps).revisions; Populated(revs[i]) && Populated(revs[k])
    ensures var revs := Run(Start(start, minted), steps).revisions; Tuple(revs[i]) != Tuple(revs[k])
  {
    RunInv(Start(start, minted), steps);
    var w := Run(Start(start, minted), steps);
    RanksAscend(w.revisions, w.minted, i, k);
    assert GoodAt(w.revisions, i, w.minted) && GoodAt(w.revisions, k, w.minted);
    if Tuple(w.revisions[i]) == Tuple(w.revisions[k]) {
      SameTupleSameRank(w.revisions[i], w.revisions[k], w.minted);
    }
  }
}
