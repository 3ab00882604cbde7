/**
 * Certificates, keys and PEM bundles as the control plane sees them (edgecp/ca.go, edgecp/signer.go).
 * A certificate is known by its fingerprint and the public key it certifies; parsing is taken as given.
 */
module Certificates {
  import opened Outcomes

  datatype Cert = Cert(fp: nat, pub: nat)

  /** One PEM block; a CERTIFICATE block that does not parse still has a fingerprint. */
  datatype Block = CertBlock(cert: Cert) | BrokenCert(fp: nat) | OtherBlock

  /** The bytes of a PEM field: NoPem is zero bytes, Pem([]) is text without any block. */
  datatype PemData = NoPem | Pem(blocks: seq<Block>)

  /** The bytes of a key field. */
  datatype KeyPem = NoKey | BrokenKey | Key(pub: nat)

  /** The order-independent id of a CA set: its fingerprints, under an injective hash. */
  type CaId = multiset<nat>

  predicate Matches(c: Cert, k: KeyPem) {
    k.Key? && c.pub == k.pub
  }

  function Blocks(p: PemData): seq<Block> {
    if p.NoPem? then [] else p.blocks
  }

  /** Every certificate in bundle order, or an error if any CERTIFICATE block does not parse. */
  function Certs(blocks: seq<Block>): Option<seq<Cert>> {
    if blocks == [] then Some([])
    else
      var rest := Certs(blocks[..|blocks| - 1]);
      match blocks[|blocks| - 1]
      case BrokenCert(_) => None
      case OtherBlock => rest
      case CertBlock(c) => if rest.None? then rest else Some(rest.value + [c])
  }

  function Fps(blocks: seq<Block>): seq<nat> {
    if blocks == [] then []
    else
      var rest := Fps(blocks[..|blocks| - 1]);
      match blocks[|blocks| - 1]
      case BrokenCert(fp) => rest + [fp]
      case OtherBlock => rest
      case CertBlock(c) => rest + [c.fp]
  }

  function Encode(certs: seq<Cert>): PemData {
    if certs == [] then NoPem else Pem(seq(|certs|, i requires 0 <= i < |certs| => CertBlock(certs[i])))
  }

  function FpsOf(certs: seq<Cert>): seq<nat> {
    seq(|certs|, i requires 0 <= i < |certs| => certs[i].fp)
  }

  function IdOf(certs: seq<Cert>): CaId {
    multiset(FpsOf(certs))
  }

  /** The first block of the bundle must be a certificate that matches the key. */
  predicate ValidPair(crt: PemData, key: KeyPem) {
    var blocks := Blocks(crt);
    blocks != [] && blocks[0].CertBlock? && Matches(blocks[0].cert, key)
  }

  lemma {:induction false} EncodeRoundTrip(certs: seq<Cert>)
    ensures Certs(Blocks(Encode(certs))) == Some(certs)
    ensures Fps(Blocks(Encode(certs))) == FpsOf(certs)
  {
    if certs != [] {
      var init, blocks := certs[..|certs| - 1], Blocks(Encode(certs));
      EncodeRoundTrip(init);
      assert blocks[..|blocks| - 1] == Blocks(Encode(init));
      assert certs == init + [certs[|certs| - 1]];
      assert FpsOf(certs) == FpsOf(init) + [certs[|certs| - 1].fp];
    }
  }

  /** When a bundle splits, the fingerprints are those of its certificates, in order. */
  lemma {:induction false} FpsOfCerts(blocks: seq<Block>)
    requires Certs(blocks).Some?
    ensures Fps(blocks) == FpsOf(Certs(blocks).value)
  {
    if blocks != [] {
      var init, last := blocks[..|blocks| - 1], blocks[|blocks| - 1];
      FpsOfCerts(init);
      if last.CertBlock? {
        var cs := Certs(init).value;
        assert FpsOf(cs + [last.cert]) == FpsOf(cs) + [last.cert.fp];
      }
    }
  }

  lemma OneBlock(block: Block)
    ensures Certs([block]) == match block case BrokenCert(_) => None case OtherBlock => Some([])
                                          case CertBlock(c) => Some([c])
    ensures Fps([block]) == match block case BrokenCert(fp) => [fp] case OtherBlock => [] case CertBlock(c) => [c.fp]
  {
    assert [block][..0] == [] && Certs([]) == Some([]) && Fps([]) == [];
    if block.CertBlock? {
      assert [] + [block.cert] == [block.cert];
    }
  }

  lemma {:induction false} JoinedBlocks(a: seq<Block>, b: seq<Block>)
    ensures Certs(a).Some? && Certs(b).Some? ==> Certs(a + b) == Some(Certs(a).value + Certs(b).value)
    ensures Fps(a + b) == Fps(a) + Fps(b)
  {
    if b == [] {
      assert a + b == a;
      assert Certs(a).Some? ==> Certs(a).value + [] == Certs(a).value;
    } else {
      var init := b[..|b| - 1];
      JoinedBlocks(a, init);
      assert (a + b)[..|a + b| - 1] == a + init;
      if Certs(a).Some? && Certs(b).Some? && b[|b| - 1].CertBlock? {
        var x, y, z := Certs(a).value, Certs(init).value, [b[|b| - 1].cert];
        assert (x + y) + z == x + (y + z);
      }
    }
  }

  lemma {:induction false} SplitsIff(a: seq<Block>)
    ensures Certs(a).Some? <==> forall i | 0 <= i < |a| :: !a[i].BrokenCert?
  {
    if a != [] {
      var init := a[..|a| - 1];
      SplitsIff(init);
      assert forall i | 0 <= i < |init| :: init[i] == a[i];
      assert Certs(a).Some? <==> Certs(init).Some? && !a[|a| - 1].BrokenCert?;
    }
  }

  /**
   * Splitting and fingerprinting, told by the blocks alone: a bundle splits exactly when none of its certificate
   * blocks is broken; a block that is no certificate gives nothing, a broken one still has a fingerprint, and
   * bundles put together give what they give apart, in order.
   */
  lemma BundlesSplit(a: seq<Block>, b: seq<Block>, c: Cert, fp: nat)
    ensures Certs(a).Some? <==> forall i | 0 <= i < |a| :: !a[i].BrokenCert?
    ensures Certs([CertBlock(c)]) == Some([c]) && Certs([OtherBlock]) == Some([])
    ensures Fps([CertBlock(c)]) == [c.fp] && Fps([OtherBlock]) == [] && Fps([BrokenCert(fp)]) == [fp]
    ensures Certs(a).Some? && Certs(b).Some? ==> Certs(a + b) == Some(Certs(a).value + Certs(b).value)
    ensures Fps(a + b) == Fps(a) + Fps(b)
  {
    SplitsIff(a);
    OneBlock(CertBlock(c));
    OneBlock(OtherBlock);
    OneBlock(BrokenCert(fp));
    JoinedBlocks(a, b);
  }

  method SplitCertBundle(crt: PemData) returns (r: Option<seq<Cert>>)
    ensures r == Certs(Blocks(crt))
  {
    var blocks := Blocks(crt);
    var certs := [];
    var i := 0;
    while i < |blocks|
      invariant 0 <= i <= |blocks|
      invariant Certs(blocks[..i]) == Some(certs)
    {
      assert blocks[..i + 1][..i] == blocks[..i];
      match blocks[i] {
        case BrokenCert(_) =>
          BrokenStaysBroken(blocks, i + 1);
          return None;
        case OtherBlock =>
        case CertBlock(c) => certs := certs + [c];
      }
      i := i + 1;
    }
    assert blocks[..i] == blocks;
    return Some(certs);
  }

  lemma {:induction false} BrokenStaysBroken(blocks: seq<Block>, n: nat)
    requires n <= |blocks| && Certs(blocks[..n]).None?
    ensures Certs(blocks).None?
    decreases |blocks| - n
  {
    if n == |blocks| {
      assert blocks[..n] == blocks;
    } else {
      assert blocks[..n + 1][..n] == blocks[..n];
      BrokenStaysBroken(blocks, n + 1);
    }
  }

  method CertBundleFps(crt: PemData) returns (fps: seq<nat>)
    ensures fps == Fps(Blocks(crt))
  {
    var blocks := Blocks(crt);
    fps := [];
    var i := 0;
    while i < |blocks|
      invariant 0 <= i <= |blocks|
      invariant fps == Fps(blocks[..i])
    {
      assert blocks[..i + 1][..i] == blocks[..i];
      match blocks[i] {
        case BrokenCert(fp) => fps := fps + [fp];
        case OtherBlock =>
        case CertBlock(c) => fps := fps + [c.fp];
      }
      i := i + 1;
    }
    assert blocks[..i] == blocks;
  }
}
