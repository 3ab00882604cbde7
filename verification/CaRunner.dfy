/** The retry loop the CA jobs share, run against a Secret that others write too (edgecp/ca.go). */
module CaRunner {
  import opened Outcomes
  import opened Certificates
  import opened CaJobs
  import opened CaProtocol

  datatype Update = Accepted | Conflict | Broken

  /** The API server's side: every revision of the one Secret, updated only at the revision that was read. */
  class SecretApi {
    var revisions: seq<Secret>
    var minted: nat
    /** No call has failed so far, and nobody else has written. */
    ghost var quiet: bool

    ghost predicate Valid()
      reads this
    {
      revisions != [] && Lineage(revisions, minted)
    }

    constructor (stub: Secret, minted: nat)
      requires Good(stub, minted)
      ensures Valid() && revisions == [stub] && this.minted == minted && quiet
    {
      revisions, this.minted, quiet := [stub], minted, true;
      new;
      assert GoodAt(revisions, 0, minted);
    }

    /** Whatever other jobs write in the meantime; callers know no more than this contract. */
    method Others()
      requires Valid()
      modifies this
      ensures Valid() && old(revisions) <= revisions && old(minted) <= minted
      ensures quiet ==> old(quiet) && revisions == old(revisions)
    {
    }

    method GetSecret() returns (r: Option<(Secret, nat)>)
      requires Valid()
      modifies this`quiet
      ensures if r.None? then !quiet else quiet == old(quiet)
      ensures r.Some? ==> r.value == (revisions[|revisions| - 1], |revisions| - 1)
    {
      r := Some((revisions[|revisions| - 1], |revisions| - 1));
    }

    method GenerateCA() returns (ca: Cert)
      requires Valid()
      modifies this`minted
      ensures Valid() && ca == Mint(old(minted)) && minted == old(minted) + 1
    {
      LineageBump(revisions, minted);
      ca := Mint(minted);
      minted := minted + 1;
    }

    /** A failed update may have landed or not; the caller is told neither. */
    method UpdateSecret(next: Secret, version: nat) returns (u: Update)
      requires Valid() && version < |revisions|
      requires version == |revisions| - 1 ==> Good(next, minted) && Linked(revisions[version], next)
      modifies this`revisions, this`quiet
      ensures Valid() && (quiet ==> old(quiet)) && (u.Broken? ==> !quiet)
      ensures u.Accepted? ==> version == |old(revisions)| - 1 && revisions == old(revisions) + [next]
      ensures u.Conflict? ==> version < |old(revisions)| - 1 && revisions == old(revisions)
      ensures u.Broken? ==> revisions == old(revisions) ||
                            (version == |old(revisions)| - 1 && revisions == old(revisions) + [next])
    {
      if version != |revisions| - 1 {
        return Conflict;
      }
      LineageAppend(revisions, minted, next);
      revisions := revisions + [next];
      u := Accepted;
    }
  }

  /** What an attempt proposes from a well-shaped revision may be written over that revision. */
  lemma ProposalIsSound(job: Job, sec: Secret, serial: nat, minted: nat)
    requires Good(sec, serial) && serial < minted && Decide(job, sec, Mint(serial)).Propose?
    ensures var next := Decide(job, sec, Mint(serial)).next;
            Good(next, minted) && Linked(sec, next)
  {
    var next := Decide(job, sec, Mint(serial)).next;
    OnlyTheseWrites(job, sec, serial);
    GoodIsMonotone(next, serial + 1, minted);
  }

  /** What a job is run for. */
  ghost predicate Achieved(job: Job, s: Secret) {
    match job
    case Ensure => ValidPair(s.crt, s.key)
    case Rotate(_) => exists o, n :: Overlap(s, o, n)
    case SetActiveNew(expected) =>
      && s.active == "new"
      && ((Blanked(s) && expected.None?) || exists o, n :: Overlap(s, o, n) && PinHolds(expected, n))
    case Trim(expected) => exists n :: Single(s, n) && s.phase == "trimmed" && expected == Some(n.fp)
  }

  /** What an attempt returns or writes is what the job is run for, and reads back as such. */
  lemma DecisionAchieves(job: Job, s: Secret, serial: nat)
    requires Good(s, serial)
    ensures match Decide(job, s, Mint(serial))
            case Refuse => true
            case Return(_, _) => Achieved(job, s)
            case Propose(next) => Achieved(job, next) && ReadBackOk(job, next)
  {
    if Virgin(s) {
      VirginDecisions(job, s, serial);
      EncodedPair(Mint(serial), Mint(serial));
    } else if Blanked(s) {
      BlankedIsReportedOkIff(job, s, serial);
      BlankedIsFrozen(job, s, serial);
    } else if c :| Single(s, c) && Fresh(c, serial) {
      SingleAchieves(job, s, c, serial);
    } else {
      var o, n :| Overlap(s, o, n) && Fresh(o, serial) && Fresh(n, serial);
      OverlapAchieves(job, s, o, n, serial);
    }
  }

  lemma SingleAchieves(job: Job, s: Secret, c: Cert, serial: nat)
    requires Single(s, c) && Fresh(c, serial)
    ensures match Decide(job, s, Mint(serial))
            case Refuse => true
            case Return(_, _) => Achieved(job, s)
            case Propose(next) => Achieved(job, next) && ReadBackOk(job, next)
  {
    SingleDecisions(job, s, c, serial);
    EncodedPair(c, Mint(serial));
    if job.Rotate? {
      WritesFromSingle(job, s, c, serial);
    }
  }

  lemma OverlapAchieves(job: Job, s: Secret, o: Cert, n: Cert, serial: nat)
    requires Overlap(s, o, n)
    ensures match Decide(job, s, Mint(serial))
            case Refuse => true
            case Return(_, _) => Achieved(job, s)
            case Propose(next) => Achieved(job, next) && ReadBackOk(job, next)
  {
    OverlapDecisions(job, s, o, n, serial);
    EncodedPair(o, n);
    EncodedPair(n, n);
    if Decide(job, s, Mint(serial)).Propose? {
      WritesFromOverlap(job, s, o, n, serial);
    }
  }

  /** The job will not have this Secret. */
  ghost predicate Refused(job: Job, s: Secret) {
    exists serial :: Decide(job, s, Mint(serial)) == Refuse
  }

  ghost predicate IsRevision(revisions: seq<Secret>, at: nat, r: (PemData, KeyPem)) {
    at < |revisions| && r == (revisions[at].crt, revisions[at].key)
  }

  datatype Attempt = Retry | GiveUp | Success(result: (PemData, KeyPem))

  /** The second half of an attempt: update at the revision that was read, and read back. */
  method WriteBack(api: SecretApi, job: Job, ghost sec: Secret, next: Secret, version: nat)
    returns (a: Attempt, ghost at: nat)
    requires api.Valid() && version < |api.revisions| && api.revisions[version] == sec
    requires Good(next, api.minted) && Linked(sec, next) && Achieved(job, next) && ReadBackOk(job, next)
    requires api.quiet ==> version == |api.revisions| - 1
    modifies api
    ensures api.Valid() && old(api.revisions) <= api.revisions && (api.quiet ==> old(api.quiet))
    ensures a.Success? ==>
              && |old(api.revisions)| - 1 <= at && IsRevision(api.revisions, at, a.result)
              && Achieved(job, api.revisions[at])
    ensures !a.Success? ==> !api.quiet
  {
    ghost var minted := api.minted;
    api.Others();
    assert api.revisions[version] == sec;
    GoodIsMonotone(next, minted, api.minted);
    var u := api.UpdateSecret(next, version);
    match u {
      case Conflict => return Retry, 0;
      case Broken => return GiveUp, 0;
      case Accepted =>
        at := version + 1;
        assert IsRevision(api.revisions, at, (next.crt, next.key)) && api.revisions[at] == next;
        if job.Ensure? {
          return Success((next.crt, next.key)), at;
        }
        api.Others();
        var check := api.GetSecret();
        if check.Some? && ReadBackOk(job, check.value.0) {
          return Success((next.crt, next.key)), at;
        }
        return GiveUp, 0;
    }
  }

  /** One attempt: read, decide, and update at the revision that was read. */
  method RunAttempt(api: SecretApi, job: Job) returns (a: Attempt, ghost at: nat)
    requires api.Valid()
    modifies api
    ensures api.Valid() && old(api.revisions) <= api.revisions
    ensures a.Success? ==>
              && |old(api.revisions)| - 1 <= at && IsRevision(api.revisions, at, a.result)
              && Achieved(job, api.revisions[at])
    ensures api.quiet ==> old(api.quiet)
    ensures a.Retry? ==> !api.quiet
    ensures a.GiveUp? && api.quiet ==>
              Refused(job, old(api.revisions[|api.revisions| - 1])) && api.revisions == old(api.revisions)
  {
    api.Others();
    var got := api.GetSecret();
    if got.None? {
      return GiveUp, 0;
    }
    var (sec, version) := got.value;
    assert GoodAt(api.revisions, version, api.minted);
    ghost var serial := api.minted;
    var ca := api.GenerateCA();
    DecisionAchieves(job, sec, serial);
    match Decide(job, sec, ca) {
      case Refuse =>
        assert Refused(job, sec);
        return GiveUp, 0;
      case Return(crt, key) =>
        ReturnsWhatItRead(job, sec, serial);
        return Success((crt, key)), version;
      case Propose(next) =>
        ProposalIsSound(job, sec, serial, api.minted);
        a, at := WriteBack(api, job, sec, next, version);
    }
  }

  /**
   * EnsureCA, RotateCA, SetActiveNew and TrimCA are this loop around their own decision. A conflict reads
   * and decides again; success returns the content of a revision no older than the call, in which the job's
   * purpose is achieved; failure without a failing call or another writer means the Secret itself was refused.
   */
  method RunJob(api: SecretApi, job: Job) returns (r: Option<(PemData, KeyPem)>, ghost at: nat)
    requires api.Valid()
    modifies api
    ensures api.Valid() && old(api.revisions) <= api.revisions
    ensures r.Some? ==>
              && |old(api.revisions)| - 1 <= at && IsRevision(api.revisions, at, r.value)
              && Achieved(job, api.revisions[at])
    ensures r.None? && api.quiet ==>
              Refused(job, old(api.revisions[|api.revisions| - 1])) && api.revisions == old(api.revisions)
  {
    for attempt := 0 to MAX_ATTEMPTS
      invariant api.Valid() && old(api.revisions) <= api.revisions
      invariant if attempt == 0 then api.revisions == old(api.revisions) && api.quiet == old(api.quiet) else !api.quiet
    {
      var a;
      a, at := RunAttempt(api, job);
      if a.Success? {
        return Some(a.result), at;
      } else if a.GiveUp? {
        return None, 0;
      }
    }
    return None, 0;
  }
}
