/** Building the signer of a CA Secret: the one bundle certificate that matches the active key (edgecp/signer.go). */
module Signers {
  import opened Outcomes
  import opened Certificates
  import opened CaJobs
  import opened CaProtocol

  datatype Signer = Signer(active: Cert, key: KeyPem, bundle: seq<Cert>)

  function CaIdOf(s: Signer): CaId {
    IdOf(s.bundle)
  }

  predicate Qualifies(c: Cert, key: KeyPem, pin: Option<nat>) {
    Matches(c, key) && (pin == None || c.fp == pin.value)
  }

  /** Entry i alone has the key's public key and, if one is pinned, the pinned fingerprint. */
  ghost predicate UniqueAt(certs: seq<Cert>, i: nat, key: KeyPem, pin: Option<nat>) {
    && i < |certs| && key == Key(certs[i].pub) && (pin.Some? ==> pin.value == certs[i].fp)
    && forall k | 0 <= k < |certs| && key == Key(certs[k].pub) && (pin.Some? ==> pin.value == certs[k].fp) :: k == i
  }

  /** Index of the qualifying certificate, -1 for none, -2 for more than one. */
  function ActiveIndex(certs: seq<Cert>, key: KeyPem, pin: Option<nat>): int {
    if certs == [] then -1
    else
      var n := |certs| - 1;
      var rest := ActiveIndex(certs[..n], key, pin);
      if !Qualifies(certs[n], key, pin) then rest
      else if rest == -1 then n
      else -2
  }

  lemma {:induction false} ActiveIndexIsUnique(certs: seq<Cert>, key: KeyPem, pin: Option<nat>)
    ensures var i := ActiveIndex(certs, key, pin);
            && -2 <= i < |certs|
            && (i == -1 <==> forall k | 0 <= k < |certs| :: !Qualifies(certs[k], key, pin))
            && (i >= 0 ==> UniqueAt(certs, i, key, pin))
            && (i == -2 ==> forall k :: k >= 0 ==> !UniqueAt(certs, k, key, pin))
  {
    if certs != [] {
      var n := |certs| - 1;
      var init := certs[..n];
      ActiveIndexIsUnique(init, key, pin);
      var i, rest := ActiveIndex(certs, key, pin), ActiveIndex(init, key, pin);
      forall k | 0 <= k < n ensures certs[k] == init[k] {}
      if i == -2 {
        forall k | k >= 0 ensures !UniqueAt(certs, k, key, pin) {
          if UniqueAt(certs, k, key, pin) && k < n {
            assert UniqueAt(init, k, key, pin);
          }
        }
      }
    }
  }

  /** The signer a bundle, a key and a pinned fingerprint give, if any. */
  function Build(crt: PemData, key: KeyPem, pin: Option<nat>): Option<Signer> {
    var certs := Certs(Blocks(crt));
    if !key.Key? || certs.None? then None
    else
      ActiveIndexIsUnique(certs.value, key, pin);
      var i := ActiveIndex(certs.value, key, pin);
      if i < 0 then None else Some(Signer(certs.value[i], key, certs.value))
  }

  /**
   * A signer is built exactly when the key and every certificate parse and one bundle entry alone matches
   * the key and the pin; that entry is its active certificate.
   */
  lemma BuildIsUnique(crt: PemData, key: KeyPem, pin: Option<nat>)
    ensures var certs := Certs(Blocks(crt));
            Build(crt, key, pin).Some? <==>
              key.Key? && certs.Some? && exists i: nat :: UniqueAt(certs.value, i, key, pin)
    ensures var certs := Certs(Blocks(crt));
            Build(crt, key, pin).Some? ==>
              var s := Build(crt, key, pin).value;
              && s.bundle == certs.value && s.key == key
              && exists i: nat :: UniqueAt(s.bundle, i, key, pin) && s.bundle[i] == s.active
  {
    var certs := Certs(Blocks(crt));
    if certs.Some? {
      ActiveIndexIsUnique(certs.value, key, pin);
    }
  }

  method NewProvidedSignerActive(crt: PemData, key: KeyPem, pin: Option<nat>) returns (r: Option<Signer>)
    ensures r == Build(crt, key, pin)
  {
    if !key.Key? {
      return None;
    }
    var blocks := Blocks(crt);
    var certs: seq<Cert> := [];
    var activeIx := -1;
    var i := 0;
    while i < |blocks|
      invariant 0 <= i <= |blocks|
      invariant Certs(blocks[..i]) == Some(certs)
      invariant activeIx == ActiveIndex(certs, key, pin) >= -1
    {
      assert blocks[..i + 1][..i] == blocks[..i];
      ActiveIndexIsUnique(certs, key, pin);
      match blocks[i] {
        case BrokenCert(_) =>
          BrokenStaysBroken(blocks, i + 1);
          return None;
        case OtherBlock =>
        case CertBlock(c) =>
          assert (certs + [c])[..|certs|] == certs;
          if Qualifies(c, key, pin) {
            if activeIx >= 0 {
              AmbiguousStaysAmbiguous(blocks, i + 1, key, pin);
              return None;
            }
            activeIx := |certs|;
          }
          certs := certs + [c];
      }
      i := i + 1;
    }
    assert blocks[..i] == blocks;
    if activeIx < 0 {
      return None;
    }
    ActiveIndexIsUnique(certs, key, pin);
    return Some(Signer(certs[activeIx], key, certs));
  }

  lemma {:induction false} AmbiguousStaysAmbiguous(blocks: seq<Block>, n: nat, key: KeyPem, pin: Option<nat>)
    requires n <= |blocks|
    requires var certs := Certs(blocks[..n]); certs.None? || ActiveIndex(certs.value, key, pin) == -2
    ensures var certs := Certs(blocks); certs.None? || ActiveIndex(certs.value, key, pin) == -2
    decreases |blocks| - n
  {
    if n == |blocks| {
      assert blocks[..n] == blocks;
    } else {
      assert blocks[..n + 1][..n] == blocks[..n];
      var certs := Certs(blocks[..n]);
      if certs.Some? && blocks[n].CertBlock? {
        assert (certs.value + [blocks[n].cert])[..|certs.value|] == certs.value;
      }
      AmbiguousStaysAmbiguous(blocks, n + 1, key, pin);
    }
  }

  /** The signer the serving control plane derives from a Secret: key and pin follow the active annotation. */
  function Candidate(s: Secret): Option<Signer> {
    var fps := Fps(Blocks(s.crt));
    var newest := s.active == "new";
    var key := if newest then s.newKey else s.key;
    var pin := if fps == [] then None else Some(if newest then fps[|fps| - 1] else fps[0]);
    if s.crt == NoPem || key == NoKey then None
    else Build(s.crt, key, pin)
  }

  lemma BuildsAt(certs: seq<Cert>, i: nat, key: KeyPem, pin: Option<nat>)
    requires UniqueAt(certs, i, key, pin)
    ensures ActiveIndex(certs, key, pin) == i
  {
    ActiveIndexIsUnique(certs, key, pin);
  }

  lemma SingleBuilds(s: Secret, c: Cert)
    requires Single(s, c)
    ensures Populated(s) && Bundle(s) == [c] && ActiveCert(s) == Some(c)
    ensures Candidate(s) == Some(Signer(c, s.key, [c]))
  {
    EncodedPair(c, c);
    SingleBundle(s, c);
    BuildsAt([c], 0, s.key, Some(c.fp));
  }

  lemma OverlapBuilds(s: Secret, o: Cert, n: Cert)
    requires Overlap(s, o, n)
    ensures Populated(s) && Bundle(s) == [o, n] && ActiveCert(s) == Some(if s.active == "new" then n else o)
    ensures Candidate(s) == Some(if s.active == "new" then Signer(n, s.newKey, [o, n]) else Signer(o, s.key, [o, n]))
  {
    EncodedPair(o, n);
    OverlapBundle(s, o, n);
    if s.active == "new" {
      BuildsAt([o, n], 1, s.newKey, Some(n.fp));
    } else {
      BuildsAt([o, n], 0, s.key, Some(o.fp));
    }
  }

  /** Every populated revision of the protocol builds, and its signer is the protocol's active certificate. */
  lemma PopulatedBuilds(s: Secret, below: nat)
    requires Good(s, below)
    ensures Candidate(s).Some? <==> Populated(s)
    ensures Candidate(s).Some? ==>
              && Candidate(s).value.bundle == Bundle(s)
              && ActiveCert(s) == Some(Candidate(s).value.active)
              && Matches(Candidate(s).value.active, Candidate(s).value.key)
  {
    if c :| Single(s, c) {
      SingleBuilds(s, c);
    } else if o, n :| Overlap(s, o, n) {
      OverlapBuilds(s, o, n);
    }
  }
}
