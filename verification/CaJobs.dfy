/** The edge-CA Secret and the four run-once jobs that write it (edgecp/ca.go). */
module CaJobs {
  import opened Outcomes
  import opened Certificates

  const MAX_ATTEMPTS: nat := 5

  /** The CA Secret: tls.crt, tls.key, tls-new.key and the annotations; "" is an absent annotation. */
  datatype Secret = Secret(
    crt: PemData, key: KeyPem, newKey: KeyPem,
    guard: Option<CaId>, phase: string, active: string, started: Option<int>)

  datatype Job =
    | Ensure
    | Rotate(now: int)
    | SetActiveNew(expected: Option<nat>)
    | Trim(expected: Option<nat>)

  /** What one attempt does with the Secret it read. */
  datatype Action = Refuse | Return(crt: PemData, key: KeyPem) | Propose(next: Secret)

  /** A newly minted CA: its number is used by no certificate or key before it. */
  function Mint(serial: nat): Cert {
    Cert(serial, serial)
  }

  function EnsureAction(s: Secret, ca: Cert): Action {
    if s.crt != NoPem || s.key != NoKey then
      if ValidPair(s.crt, s.key) then Return(s.crt, s.key) else Refuse
    else if s.guard.Some? then Refuse
    else Propose(s.(crt := Encode([ca]), key := Key(ca.pub), guard := Some(IdOf([ca]))))
  }

  function RotateAction(s: Secret, ca: Cert, now: int): Action {
    if !ValidPair(s.crt, s.key) then Refuse
    else
      var certs := Certs(Blocks(s.crt));
      if certs.None? then Refuse
      else if s.phase == "overlap" && |certs.value| == 2 && s.newKey != NoKey then Return(s.crt, s.key)
      else if |certs.value| != 1 then Refuse
      else
        var both := certs.value + [ca];
        Propose(s.(crt := Encode(both), newKey := Key(ca.pub), phase := "overlap", active := "old",
                   started := Some(now), guard := Some(IdOf(both))))
  }

  predicate LastFpIs(s: Secret, fp: nat) {
    var fps := Fps(Blocks(s.crt));
    fps != [] && fps[|fps| - 1] == fp
  }

  function FlipAction(s: Secret, expected: Option<nat>): Action {
    var certs := Certs(Blocks(s.crt));
    if certs.None? then Refuse
    else if s.active == "new" then
      if expected.Some? && !LastFpIs(s, expected.value) then Refuse else Return(s.crt, s.key)
    else if s.phase != "overlap" || |certs.value| != 2 then Refuse
    else if s.newKey == NoKey then Refuse
    else if expected.Some? && !LastFpIs(s, expected.value) then Refuse
    else if !ValidPair(Encode([certs.value[1]]), s.newKey) then Refuse
    else Propose(s.(active := "new"))
  }

  function TrimAction(s: Secret, expected: Option<nat>): Action {
    var certs := Certs(Blocks(s.crt));
    if expected.None? || certs.None? then Refuse
    else if s.phase == "trimmed" && |certs.value| == 1 then
      if LastFpIs(s, expected.value) && ValidPair(s.crt, s.key) then Return(s.crt, s.key) else Refuse
    else if s.active != "new" then Refuse
    else if s.phase != "overlap" || |certs.value| != 2 then Refuse
    else if !LastFpIs(s, expected.value) then Refuse
    else if s.newKey == NoKey || !ValidPair(Encode([certs.value[1]]), s.newKey) then Refuse
    else
      var survivor := [certs.value[1]];
      Propose(s.(crt := Encode(survivor), key := s.newKey, newKey := NoKey, phase := "trimmed", active := "old",
                 started := None, guard := Some(IdOf(survivor))))
  }

  function Decide(job: Job, s: Secret, ca: Cert): Action {
    match job
    case Ensure => EnsureAction(s, ca)
    case Rotate(now) => RotateAction(s, ca, now)
    case SetActiveNew(expected) => FlipAction(s, expected)
    case Trim(expected) => TrimAction(s, expected)
  }

  /** The read-back after a successful write, as far as each job checks it. */
  predicate ReadBackOk(job: Job, s: Secret) {
    var certs := Certs(Blocks(s.crt));
    match job
    case Ensure => true
    case Rotate(_) => certs.Some? && |certs.value| == 2
    case SetActiveNew(_) => s.active == "new"
    case Trim(expected) =>
      certs.Some? && |certs.value| == 1 && expected.Some? && LastFpIs(s, expected.value) && ValidPair(s.crt, s.key)
  }

  // The shapes a Secret goes through. `below` bounds the serials minted so far.

  predicate Virgin(s: Secret) {
    s == Secret(NoPem, NoKey, NoKey, None, "", "", None)
  }

  predicate Single(s: Secret, c: Cert) {
    && s.crt == Encode([c]) && s.key == Key(c.pub) && s.newKey == NoKey
    && s.guard == Some(IdOf([c]))
    && ((s.phase == "" && s.active == "") || (s.phase == "trimmed" && s.active == "old"))
  }

  predicate Overlap(s: Secret, o: Cert, n: Cert) {
    && s.crt == Encode([o, n]) && s.key == Key(o.pub) && s.newKey == Key(n.pub)
    && o.fp < n.fp && o.pub != n.pub
    && s.guard == Some(IdOf([o, n]))
    && s.phase == "overlap" && (s.active == "old" || s.active == "new")
  }

  /** A populated CA whose data an operator or a prune emptied: the annotations remain. */
  predicate Blanked(s: Secret) {
    s.crt == NoPem && s.key == NoKey && s.newKey == NoKey && s.guard.Some?
  }

  predicate Fresh(c: Cert, below: nat) {
    c.fp < below && c.pub < below
  }

  ghost predicate Good(s: Secret, below: nat) {
    || Virgin(s)
    || (exists c :: Single(s, c) && Fresh(c, below))
    || (exists o, n :: Overlap(s, o, n) && Fresh(o, below) && Fresh(n, below))
    || Blanked(s)
  }

  function Blank(s: Secret): Secret {
    s.(crt := NoPem, key := NoKey, newKey := NoKey)
  }

  lemma EncodedPair(a: Cert, b: Cert)
    ensures Certs(Blocks(Encode([a, b]))) == Some([a, b]) && Fps(Blocks(Encode([a, b]))) == [a.fp, b.fp]
    ensures Certs(Blocks(Encode([a]))) == Some([a]) && Fps(Blocks(Encode([a]))) == [a.fp]
    ensures forall k :: ValidPair(Encode([a]), k) <==> Matches(a, k)
    ensures forall k :: ValidPair(Encode([a, b]), k) <==> Matches(a, k)
  {
    EncodeRoundTrip([a, b]);
    EncodeRoundTrip([a]);
    assert FpsOf([a, b]) == [a.fp, b.fp] && FpsOf([a]) == [a.fp];
  }

  lemma WritesFromSingle(job: Job, s: Secret, c: Cert, serial: nat)
    requires Single(s, c) && Fresh(c, serial)
    ensures var act := Decide(job, s, Mint(serial));
            act.Propose? ==> job.Rotate? && Overlap(act.next, c, Mint(serial)) && act.next.active == "old"
  {
    EncodedPair(c, Mint(serial));
    assert [c] + [Mint(serial)] == [c, Mint(serial)];
  }

  lemma WritesFromOverlap(job: Job, s: Secret, o: Cert, n: Cert, serial: nat)
    requires Overlap(s, o, n)
    ensures var act := Decide(job, s, Mint(serial));
            act.Propose? ==>
              || (job.SetActiveNew? && s.active == "old" && Overlap(act.next, o, n) && act.next.active == "new"
                  && PinHolds(job.expected, n))
              || (job.Trim? && s.active == "new" && Single(act.next, n) && job.expected == Some(n.fp))
  {
    EncodedPair(o, n);
    EncodedPair(n, n);
  }

  lemma WritesFromEmpty(job: Job, s: Secret, serial: nat)
    requires s.crt == NoPem && s.key == NoKey
    ensures var act := Decide(job, s, Mint(serial));
            act.Propose? ==> job.Ensure? && s.guard.None? && (Virgin(s) ==> Single(act.next, Mint(serial)))
  {
  }

  /** A blanked CA is never written again by any job: the guard stops Ensure, the empty data the others. */
  lemma BlankedIsFrozen(job: Job, s: Secret, serial: nat)
    requires Blanked(s)
    ensures !Decide(job, s, Mint(serial)).Propose?
    ensures job.Ensure? ==> Decide(job, s, Mint(serial)).Refuse?
  {
    WritesFromEmpty(job, s, serial);
  }

  /**
   * What a job reports on a blanked CA: all of them refuse, but for one. A flip without a pin reports success,
   * and an empty bundle, if and only if the CA was emptied after it had been flipped.
   */
  lemma BlankedIsReportedOkIff(job: Job, s: Secret, serial: nat)
    requires Blanked(s)
    ensures var act := Decide(job, s, Mint(serial));
            && (act.Return? <==> job == SetActiveNew(None) && s.active == "new")
            && (act.Return? ==> act == Return(NoPem, NoKey))
  {
    BlankedIsFrozen(job, s, serial);
    EncodeRoundTrip([]);
  }

  /** An operator may leave the certificate to flip to unpinned, but not pin another one. */
  predicate PinHolds(expected: Option<nat>, n: Cert) {
    expected.None? || expected.value == n.fp
  }

  /** The transition a job's write makes. */
  ghost predicate Writes(job: Job, s: Secret, next: Secret, serial: nat) {
    match job
    case Ensure => Virgin(s) && Single(next, Mint(serial))
    case Rotate(_) => exists c :: Single(s, c) && Overlap(next, c, Mint(serial)) && next.active == "old"
    case SetActiveNew(expected) =>
      exists o, n :: Overlap(s, o, n) && s.active == "old" && Overlap(next, o, n) && next.active == "new"
                     && PinHolds(expected, n)
    case Trim(expected) =>
      exists o, n :: Overlap(s, o, n) && s.active == "new" && Single(next, n) && expected == Some(n.fp)
  }

  /**
   * What each job may write, over every well-shaped Secret: Ensure populates a virgin stub, Rotate widens
   * a single CA, SetActiveNew flips an overlap, and Trim drops the old certificate of a flipped overlap,
   * keeping the pinned new one with its own key. Nothing else is ever proposed.
   */
  lemma OnlyTheseWrites(job: Job, s: Secret, serial: nat)
    requires Good(s, serial) && Decide(job, s, Mint(serial)).Propose?
    ensures var next := Decide(job, s, Mint(serial)).next;
            Writes(job, s, next, serial) && Good(next, serial + 1)
  {
    var next, ca := Decide(job, s, Mint(serial)).next, Mint(serial);
    assert Fresh(ca, serial + 1);
    if s.crt == NoPem && s.key == NoKey {
      WritesFromEmpty(job, s, serial);
    } else if c :| Single(s, c) && Fresh(c, serial) {
      WritesFromSingle(job, s, c, serial);
      assert Fresh(c, serial + 1);
    } else {
      var o, n :| Overlap(s, o, n) && Fresh(o, serial) && Fresh(n, serial);
      WritesFromOverlap(job, s, o, n, serial);
      assert Fresh(o, serial + 1) && Fresh(n, serial + 1);
    }
  }

  // Every decision, by the shape of the Secret.

  lemma VirginDecisions(job: Job, s: Secret, serial: nat)
    requires Virgin(s)
    ensures var ca, act := Mint(serial), Decide(job, s, Mint(serial));
            if job.Ensure? then act == Propose(Secret(Encode([ca]), Key(ca.pub), NoKey, Some(IdOf([ca])), "", "", None))
            else act == Refuse
  {
    WritesFromEmpty(job, s, serial);
    EncodeRoundTrip([]);
  }

  /** A trim on a trimmed Secret succeeds if and only if it is pinned to the one certificate left. */
  lemma SingleDecisions(job: Job, s: Secret, c: Cert, serial: nat)
    requires Single(s, c)
    ensures var ca, act := Mint(serial), Decide(job, s, Mint(serial));
            match job
            case Ensure => act == Return(s.crt, s.key)
            case Rotate(now) =>
              var both := [c, ca];
              act == Propose(Secret(Encode(both), s.key, Key(ca.pub), Some(IdOf(both)), "overlap", "old", Some(now)))
            case SetActiveNew(_) => act == Refuse
            case Trim(expected) =>
              act == if s.phase == "trimmed" && expected == Some(c.fp) then Return(s.crt, s.key) else Refuse
  {
    EncodedPair(c, Mint(serial));
    assert [c] + [Mint(serial)] == [c, Mint(serial)];
  }

  /** A flip writes, or succeeds once flipped, if and only if its pin holds; a trim needs the pin and the flip. */
  lemma OverlapDecisions(job: Job, s: Secret, o: Cert, n: Cert, serial: nat)
    requires Overlap(s, o, n)
    ensures var act := Decide(job, s, Mint(serial));
            match job
            case Ensure => act == Return(s.crt, s.key)
            case Rotate(_) => act == Return(s.crt, s.key)
            case SetActiveNew(expected) =>
              act == if expected.Some? && expected.value != n.fp then Refuse
                     else if s.active == "old" then Propose(s.(active := "new")) else Return(s.crt, s.key)
            case Trim(expected) =>
              act == if s.active == "new" && expected == Some(n.fp)
                     then Propose(Secret(Encode([n]), Key(n.pub), NoKey, Some(IdOf([n])), "trimmed", "old", None))
                     else Refuse
  {
    EncodedPair(o, n);
    EncodedPair(n, n);
  }

  /** Whatever its annotations say, material that does not hold together is neither adopted nor written. */
  lemma CorruptIsRefused(job: Job, s: Secret, ca: Cert)
    ensures (s.crt != NoPem || s.key != NoKey) && !ValidPair(s.crt, s.key) && (job.Ensure? || job.Rotate?) ==>
              Decide(job, s, ca) == Refuse
    ensures (exists i | 0 <= i < |Blocks(s.crt)| :: Blocks(s.crt)[i].BrokenCert?) && !job.Ensure? ==>
              Decide(job, s, ca) == Refuse
    ensures (job.SetActiveNew? || job.Trim?) && Decide(job, s, ca).Propose? ==>
              s.phase == "overlap" &&
              exists o: Cert, n: Cert :: Certs(Blocks(s.crt)) == Some([o, n]) && s.newKey == Key(n.pub)
  {
    SplitsIff(Blocks(s.crt));
    if (job.SetActiveNew? || job.Trim?) && Decide(job, s, ca).Propose? {
      var certs := Certs(Blocks(s.crt)).value;
      assert certs == [certs[0], certs[1]];
    }
  }

  /** The jobs do proceed: on the shape it is meant for, each one writes. */
  lemma JobsProceed(s: Secret, serial: nat, now: int)
    ensures Virgin(s) ==> EnsureAction(s, Mint(serial)).Propose?
    ensures forall c | Single(s, c) :: RotateAction(s, Mint(serial), now).Propose?
    ensures forall o, n | Overlap(s, o, n) && s.active == "old" ::
              FlipAction(s, None).Propose? && FlipAction(s, Some(n.fp)).Propose?
    ensures forall o, n | Overlap(s, o, n) && s.active == "new" :: TrimAction(s, Some(n.fp)).Propose?
  {
    forall c | Single(s, c) ensures RotateAction(s, Mint(serial), now).Propose? {
      EncodedPair(c, c);
    }
    forall o, n | Overlap(s, o, n)
      ensures s.active == "old" ==> FlipAction(s, None).Propose? && FlipAction(s, Some(n.fp)).Propose?
      ensures s.active == "new" ==> TrimAction(s, Some(n.fp)).Propose?
    {
      EncodedPair(o, n);
      EncodedPair(n, n);
    }
  }

  /** A job run again on what it wrote returns it unchanged and writes nothing. */
  lemma RerunEnsure(s: Secret, c: Cert, again: Cert)
    requires Single(s, c)
    ensures EnsureAction(s, again) == Return(s.crt, s.key)
  {
    EncodedPair(c, c);
  }

  lemma RerunInOverlap(s: Secret, o: Cert, n: Cert, again: Cert, now: int)
    requires Overlap(s, o, n)
    ensures RotateAction(s, again, now) == Return(s.crt, s.key)
    ensures s.active == "new" ==>
              FlipAction(s, None) == Return(s.crt, s.key) && FlipAction(s, Some(n.fp)) == Return(s.crt, s.key)
  {
    EncodedPair(o, n);
  }

  lemma RerunTrim(s: Secret, o: Cert, n: Cert)
    requires Overlap(s, o, n) && s.active == "new"
    ensures var act := TrimAction(s, Some(n.fp));
            act.Propose? && TrimAction(act.next, Some(n.fp)) == Return(act.next.crt, act.next.key)
  {
    EncodedPair(o, n);
    EncodedPair(n, n);
  }
}
