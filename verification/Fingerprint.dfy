/** The content fingerprint of the documents that feed one compiled instance (controller_waf.go). */
module Fingerprint {
  /** A document: bytes, as characters, of a length that fits a signed 64-bit integer. */
  type Doc = s: string | |s| < 0x8000_0000_0000_0000

  type Hash = string -> string

  /** The hash stands for its input, and its output is never empty. */
  ghost predicate Collisionless(hash: Hash) {
    (forall a, b :: hash(a) == hash(b) ==> a == b) && forall a :: hash(a) != ""
  }

  function LittleEndian(n: nat, width: nat): (s: string)
    ensures |s| == width
  {
    if width == 0 then "" else [(n % 256) as char] + LittleEndian(n / 256, width - 1)
  }

  function Pow256(k: nat): nat {
    if k == 0 then 1 else 256 * Pow256(k - 1)
  }

  lemma {:induction false} LittleEndianIsInjective(m: nat, n: nat, width: nat)
    requires m < Pow256(width) && n < Pow256(width) && LittleEndian(m, width) == LittleEndian(n, width)
    ensures m == n
  {
    if width > 0 {
      var a, b := LittleEndian(m, width), LittleEndian(n, width);
      assert a[0] == (m % 256) as char && b[0] == (n % 256) as char;
      assert a[1..] == LittleEndian(m / 256, width - 1) && b[1..] == LittleEndian(n / 256, width - 1);
      LittleEndianIsInjective(m / 256, n / 256, width - 1);
    }
  }

  /** A document after its length in eight bytes. */
  function Block(doc: Doc): string {
    LittleEndian(|doc|, 8) + doc
  }

  /** What the hash is fed. */
  function PreImage(docs: seq<Doc>): string {
    if docs == [] then "" else PreImage(docs[..|docs| - 1]) + Block(docs[|docs| - 1])
  }

  function FingerprintOf(hash: Hash, docs: seq<Doc>): string {
    hash(PreImage(docs))
  }

  method FingerprintDocs(hash: Hash, docs: seq<Doc>) returns (fp: string)
    ensures fp == FingerprintOf(hash, docs)
  {
    var fed := "";
    for i := 0 to |docs|
      invariant fed == PreImage(docs[..i])
    {
      assert docs[..i + 1][..i] == docs[..i];
      Associate(fed, LittleEndian(|docs[i]|, 8), docs[i]);
      fed := fed + LittleEndian(|docs[i]|, 8);
      fed := fed + docs[i];
    }
    assert docs[..|docs|] == docs;
    fp := hash(fed);
  }

  lemma Associate(a: string, b: string, c: string)
    ensures (a + b) + c == a + (b + c)
  {
  }

  lemma {:induction false} PreImageFromTheLeft(docs: seq<Doc>)
    requires docs != []
    ensures PreImage(docs) == Block(docs[0]) + PreImage(docs[1..])
  {
    var n := |docs| - 1;
    if n == 0 {
      assert docs[..0] == [] && docs[1..] == [];
    } else {
      PreImageFromTheLeft(docs[..n]);
      assert docs[..n][1..] == docs[1..][..n - 1];
      Associate(Block(docs[0]), PreImage(docs[..n][1..]), Block(docs[n]));
    }
  }

  /** The first document of a pre-image can be read off it. */
  lemma FirstDocument(a: seq<Doc>, b: seq<Doc>)
    requires a != [] && b != [] && PreImage(a) == PreImage(b)
    ensures a[0] == b[0] && PreImage(a[1..]) == PreImage(b[1..])
  {
    PreImageFromTheLeft(a);
    PreImageFromTheLeft(b);
    SameBlock(a[0], PreImage(a[1..]), b[0], PreImage(b[1..]));
  }

  lemma SameBlock(x: Doc, more: string, y: Doc, rest: string)
    requires Block(x) + more == Block(y) + rest
    ensures x == y && more == rest
  {
    var p := Block(x) + more;
    assert p[..8] == LittleEndian(|x|, 8) && p[..8] == LittleEndian(|y|, 8);
    Eight();
    LittleEndianIsInjective(|x|, |y|, 8);
    var n := 8 + |x|;
    assert p[8..n] == x && p[8..n] == y;
    assert p[n..] == more && p[n..] == rest;
  }

  lemma Eight()
    ensures Pow256(8) == 0x1_0000_0000_0000_0000
  {
    assert Pow256(2) == 0x1_0000;
    assert Pow256(4) == 256 * (256 * Pow256(2));
    assert Pow256(6) == 256 * (256 * Pow256(4));
    assert Pow256(8) == 256 * (256 * Pow256(6));
  }

  lemma NonEmptyPreImage(docs: seq<Doc>)
    ensures PreImage(docs) == "" <==> docs == []
  {
    if docs != [] {
      PreImageFromTheLeft(docs);
    }
  }

  /** The length prefixes make the pre-image decodable: it determines the list of documents. */
  lemma {:induction false} PreImageIsInjective(a: seq<Doc>, b: seq<Doc>)
    requires PreImage(a) == PreImage(b)
    ensures a == b
  {
    NonEmptyPreImage(a);
    NonEmptyPreImage(b);
    if a != [] && b != [] {
      FirstDocument(a, b);
      PreImageIsInjective(a[1..], b[1..]);
      assert a == [a[0]] + a[1..] && b == [b[0]] + b[1..];
    }
  }

  /** Equal fingerprints mean equal document lists, boundaries included, and no fingerprint is empty. */
  lemma FingerprintIsInjective(hash: Hash, a: seq<Doc>, b: seq<Doc>)
    requires Collisionless(hash)
    ensures FingerprintOf(hash, a) == FingerprintOf(hash, b) <==> a == b
    ensures FingerprintOf(hash, a) != ""
  {
    if FingerprintOf(hash, a) == FingerprintOf(hash, b) {
      PreImageIsInjective(a, b);
    }
  }

  /** Plain concatenation would not do. */
  lemma ConcatenationCollides()
    ensures "a" + "bc" == "ab" + "c" && PreImage(["a", "bc"]) != PreImage(["ab", "c"])
  {
    var a, b := ["a", "bc"], ["ab", "c"];
    assert |a[0]| != |b[0]|;
    if PreImage(a) == PreImage(b) {
      PreImageIsInjective(a, b);
    }
  }
}
