/** Bucket keys and configuration keys of rate limits: joins that must not collide (ratelimitrule/limiter.go). */
module KeyEncoding {
  import opened Outcomes

  const MAX_KEY_PART_LEN: nat := 128
  const COLLAPSED_HOST := "other"

  predicate Free(s: string, c: char) {
    forall i | 0 <= i < |s| :: s[i] != c
  }

  function Join(parts: seq<string>, sep: char): string {
    if parts == [] then ""
    else if |parts| == 1 then parts[0]
    else parts[0] + [sep] + Join(parts[1..], sep)
  }

  /** A separator that neither tail contains sits at the same place from the right. */
  lemma LastSplit(a: string, b: string, a': string, b': string, c: char)
    requires a + [c] + b == a' + [c] + b' && Free(b, c) && Free(b', c)
    ensures a == a' && b == b'
  {
    var s, s' := a + [c] + b, a' + [c] + b';
    assert s[|a|] == c && s'[|a|] == c && s[|a'|] == c && s'[|a'|] == c;
    assert a == s[..|a|] && a' == s'[..|a'|];
    assert b == s[|a| + 1..] && b' == s'[|a'| + 1..];
  }

  /** A separator that neither head contains sits at the same place from the left. */
  lemma FirstSplit(a: string, b: string, a': string, b': string, c: char)
    requires a + [c] + b == a' + [c] + b' && Free(a, c) && Free(a', c)
    ensures a == a' && b == b'
  {
    var s, s' := a + [c] + b, a' + [c] + b';
    assert s[|a|] == c && s'[|a|] == c && s[|a'|] == c && s'[|a'|] == c;
    assert a == s[..|a|] && a' == s'[..|a'|];
    assert b == s[|a| + 1..] && b' == s'[|a'| + 1..];
  }

  lemma {:induction false} JoinSnoc(parts: seq<string>, last: string, sep: char)
    requires parts != []
    ensures Join(parts + [last], sep) == Join(parts, sep) + [sep] + last
  {
    if |parts| == 1 {
      assert (parts + [last])[1..] == [last];
    } else {
      JoinSnoc(parts[1..], last, sep);
      assert (parts + [last])[1..] == parts[1..] + [last];
      assert Join(parts + [last], sep) == parts[0] + [sep] + (Join(parts[1..], sep) + [sep] + last);
      assert parts[0] + [sep] + (Join(parts[1..], sep) + [sep] + last) ==
             parts[0] + [sep] + Join(parts[1..], sep) + [sep] + last;
    }
  }

  /** Every part but the one at `wild` is free of the separator. */
  predicate FreeBut(parts: seq<string>, wild: nat, sep: char) {
    forall i | 0 <= i < |parts| && i != wild :: Free(parts[i], sep)
  }

  /**
   * Two joins over the same positions are equal only if every part is, although one part, at the same
   * position in both, may contain the separator: the parts around it anchor its boundaries.
   */
  lemma {:induction false} JoinIsInjective(v: seq<string>, w: seq<string>, wild: nat, sep: char)
    requires |v| == |w| && FreeBut(v, wild, sep) && FreeBut(w, wild, sep) && Join(v, sep) == Join(w, sep)
    ensures v == w
    decreases |v|
  {
    if |v| <= 1 {
      assert |v| == 1 ==> v == [v[0]] && w == [w[0]];
    } else if wild != 0 {
      FirstSplit(v[0], Join(v[1..], sep), w[0], Join(w[1..], sep), sep);
      JoinIsInjective(v[1..], w[1..], wild - 1, sep);
      assert v == [v[0]] + v[1..] && w == [w[0]] + w[1..];
    } else {
      var n := |v| - 1;
      assert v == v[..n] + [v[n]] && w == w[..n] + [w[n]];
      JoinSnoc(v[..n], v[n], sep);
      JoinSnoc(w[..n], w[n], sep);
      LastSplit(Join(v[..n], sep), v[n], Join(w[..n], sep), w[n], sep);
      JoinIsInjective(v[..n], w[..n], wild, sep);
    }
  }

  lemma JoinHasSeparator(parts: seq<string>, sep: char)
    requires |parts| > 1
    ensures !Free(Join(parts, sep), sep)
  {
    assert Join(parts, sep)[|parts[0]|] == sep;
  }

  /** Joins of separator-free parts also determine how many parts there are, unless one is a lone empty part. */
  lemma {:induction false} FreeJoinIsInjective(v: seq<string>, w: seq<string>, sep: char)
    requires v != [] && w != [] && (forall i | 0 <= i < |v| :: Free(v[i], sep))
    requires (forall i | 0 <= i < |w| :: Free(w[i], sep)) && Join(v, sep) == Join(w, sep)
    ensures v == w
    decreases |v|
  {
    if |v| > 1 && |w| > 1 {
      FirstSplit(v[0], Join(v[1..], sep), w[0], Join(w[1..], sep), sep);
      FreeJoinIsInjective(v[1..], w[1..], sep);
      assert v == [v[0]] + v[1..] && w == [w[0]] + w[1..];
    } else {
      if |v| > 1 {
        JoinHasSeparator(v, sep);
      } else if |w| > 1 {
        JoinHasSeparator(w, sep);
      }
      assert v == [v[0]] && w == [w[0]];
    }
  }

  function Digit(d: nat): char
    requires d < 10
  {
    '0' + d as char
  }

  function Itoa(n: nat): (s: string)
    ensures s != [] && forall i | 0 <= i < |s| :: '0' <= s[i] <= '9'
  {
    if n < 10 then [Digit(n)] else Itoa(n / 10) + [Digit(n % 10)]
  }

  function FormatInt(n: int): string {
    if n < 0 then "-" + Itoa(-n) else Itoa(n)
  }

  lemma {:induction false} ItoaIsInjective(m: nat, n: nat)
    requires Itoa(m) == Itoa(n)
    ensures m == n
  {
    var s := Itoa(m);
    assert Digit(m % 10) == s[|s| - 1] && Digit(n % 10) == s[|s| - 1];
    assert m % 10 == n % 10;
    if m >= 10 && n >= 10 {
      assert Itoa(m / 10) == s[..|s| - 1] && Itoa(n / 10) == s[..|s| - 1];
      ItoaIsInjective(m / 10, n / 10);
    }
  }

  // The characteristics a limit is keyed on.

  datatype KeyPart = IP | Host | ASN | Country | Header(name: string) | Cookie(name: string)

  datatype Addr = Unparsable | V4(bytes: string) | V6(bytes: string) {
    predicate Valid() {
      match this
      case Unparsable => true
      case V4(b) => |b| == 4
      case V6(b) => |b| == 16
    }
  }

  /** A request as the limiter reads it; headers are under their lower-cased names. */
  datatype Request = Request(
    addr: Addr, rawIP: string, host: string, knownHost: bool, asn: int, country: string,
    headers: map<string, string>, cookies: map<string, string>)

  function ToLower(s: string): string {
    seq(|s|, i requires 0 <= i < |s| => if 'A' <= s[i] <= 'Z' then s[i] + 32 as char else s[i])
  }

  function TruncPart(v: string): string {
    if |v| > MAX_KEY_PART_LEN then v[..MAX_KEY_PART_LEN] else v
  }

  function ValueOf(m: map<string, string>, name: string): string {
    if name in m then m[name] else ""
  }

  /** IPv4 by address, IPv6 by its /64, anything else by the raw header. */
  function IpKey(addr: Addr, rawIP: string): string
    requires addr.Valid()
  {
    match addr
    case Unparsable => rawIP
    case V4(b) => b
    case V6(b) => b[..8] + seq(8, _ => 0 as char)
  }

  function PartValue(p: KeyPart, r: Request): string
    requires r.addr.Valid()
  {
    match p
    case IP => IpKey(r.addr, r.rawIP)
    case Host => if r.knownHost then r.host else COLLAPSED_HOST
    case ASN => FormatInt(r.asn)
    case Country => r.country
    case Header(name) => TruncPart(ValueOf(r.headers, ToLower(name)))
    case Cookie(name) => TruncPart(ValueOf(r.cookies, name))
  }

  /** The number that decimal digits spell. */
  function Decimal(s: string): int {
    if s == "" then 0 else 10 * Decimal(s[..|s| - 1]) + (s[|s| - 1] as int - '0' as int)
  }

  lemma {:induction false} ItoaReadsBack(n: nat)
    ensures Decimal(Itoa(n)) == n
  {
    var s := Itoa(n);
    if n < 10 {
      assert s[..0] == "";
    } else {
      ItoaReadsBack(n / 10);
      assert s[..|s| - 1] == Itoa(n / 10);
    }
  }

  /**
   * What each characteristic contributes to the bucket key: a host as it is, or one name for all unknown ones; the
   * AS number in decimal; the country; and the first 128 characters of a header or cookie, or nothing.
   */
  lemma PartValues(r: Request, name: string)
    requires r.addr.Valid()
    ensures PartValue(Host, r) == if r.knownHost then r.host else "other"
    ensures PartValue(Country, r) == r.country
    ensures if r.asn >= 0 then Decimal(PartValue(ASN, r)) == r.asn
            else |PartValue(ASN, r)| > 1 && PartValue(ASN, r)[0] == '-' && Decimal(PartValue(ASN, r)[1..]) == -r.asn
    ensures var h, v := ToLower(name), PartValue(Header(name), r);
            && (h !in r.headers ==> v == "")
            && (h in r.headers ==> v <= r.headers[h] && |v| == if |r.headers[h]| < 128 then |r.headers[h]| else 128)
    ensures var v := PartValue(Cookie(name), r);
            && (name !in r.cookies ==> v == "")
            && (name in r.cookies ==> v <= r.cookies[name]
                                      && |v| == if |r.cookies[name]| < 128 then |r.cookies[name]| else 128)
  {
    if r.asn >= 0 {
      ItoaReadsBack(r.asn);
    } else {
      ItoaReadsBack(-r.asn);
      assert PartValue(ASN, r)[1..] == Itoa(-r.asn);
    }
  }

  /** What the server guarantees of a request: no newline outside the address. */
  predicate Clean(r: Request) {
    && r.addr.Valid() && Free(r.host, '\n') && Free(r.country, '\n')
    && (forall k | k in r.headers :: Free(r.headers[k], '\n'))
    && (forall k | k in r.cookies :: Free(r.cookies[k], '\n'))
  }

  function Values(parts: seq<KeyPart>, r: Request): seq<string>
    requires r.addr.Valid()
  {
    seq(|parts|, i requires 0 <= i < |parts| => PartValue(parts[i], r))
  }

  method BucketKey(parts: seq<KeyPart>, r: Request) returns (key: string)
    requires r.addr.Valid()
    ensures key == Join(Values(parts, r), '\n')
  {
    var vs := Values(parts, r);
    if |parts| == 1 {
      return PartValue(parts[0], r);
    }
    key := "";
    for i := 0 to |parts|
      invariant key == Join(vs[..i], '\n')
    {
      if i > 0 {
        JoinSnoc(vs[..i], vs[i], '\n');
        key := key + ['\n'];
      }
      key := key + PartValue(parts[i], r);
      assert vs[..i + 1] == vs[..i] + [vs[i]];
      assert i == 0 ==> vs[..1] == [vs[0]];
    }
    assert vs[..|parts|] == vs;
  }

  lemma PartIsFree(p: KeyPart, r: Request)
    requires Clean(r) && !p.IP?
    ensures Free(PartValue(p, r), '\n')
  {
  }

  predicate OneIpAtMost(parts: seq<KeyPart>) {
    forall i, j | 0 <= i < j < |parts| :: !(parts[i].IP? && parts[j].IP?)
  }

  /** Equal bucket keys mean equal part values, although raw address bytes may contain the separator. */
  lemma BucketKeyIsInjective(parts: seq<KeyPart>, r: Request, q: Request)
    requires OneIpAtMost(parts) && Clean(r) && Clean(q)
    requires Join(Values(parts, r), '\n') == Join(Values(parts, q), '\n')
    ensures forall i | 0 <= i < |parts| :: PartValue(parts[i], r) == PartValue(parts[i], q)
  {
    var wild := if i :| 0 <= i < |parts| && parts[i].IP? then i else |parts|;
    forall i | 0 <= i < |parts| && i != wild
      ensures Free(Values(parts, r)[i], '\n') && Free(Values(parts, q)[i], '\n')
    {
      assert !parts[i].IP?;
      PartIsFree(parts[i], r);
      PartIsFree(parts[i], q);
    }
    JoinIsInjective(Values(parts, r), Values(parts, q), wild, '\n');
    forall i | 0 <= i < |parts| ensures PartValue(parts[i], r) == PartValue(parts[i], q) {
      assert Values(parts, r)[i] == Values(parts, q)[i];
    }
  }

  /** Two ip parts would not do: their boundary can move. */
  lemma TwoWildPartsCollide()
    ensures Join(["a\n", "b"], '\n') == Join(["a", "\nb"], '\n')
  {
    assert ["a\n", "b"][1..] == ["b"] && ["a", "\nb"][1..] == ["\nb"];
  }

  /**
   * Which clients share an ip bucket: the same IPv4 address, the same IPv6 /64, the same raw string; and,
   * since both are bytes, an unparsable header that spells the bytes of an address.
   */
  lemma IpBucketsSharedIff(a: Addr, rawA: string, b: Addr, rawB: string)
    requires a.Valid() && b.Valid()
    ensures IpKey(a, rawA) == IpKey(b, rawB) <==>
            match (a, b)
            case (V4(x), V4(y)) => x == y
            case (V6(x), V6(y)) => x[..8] == y[..8]
            case (V4(_), V6(_)) => false
            case (V6(_), V4(_)) => false
            case (Unparsable, Unparsable) => rawA == rawB
            case (Unparsable, _) => rawA == IpKey(b, "")
            case (_, Unparsable) => rawB == IpKey(a, "")
  {
    if a.V6? && b.V6? && IpKey(a, rawA) == IpKey(b, rawB) {
      assert IpKey(a, rawA)[..8] == a.bytes[..8] && IpKey(b, rawB)[..8] == b.bytes[..8];
    }
  }

  // Compiling a limit's key spec.

  /** RFC 7230, section 3.2.6: the characters of a token. */
  predicate TokenChar(c: char) {
    'a' <= c <= 'z' || 'A' <= c <= 'Z' || '0' <= c <= '9' || c in "!#$%&'*+-.^_`|~"
  }

  /** The same by what it leaves out: a token has the visible characters of ASCII but the delimiters. */
  lemma TokensHaveNoDelimiters(c: char)
    ensures TokenChar(c) <==> '!' <= c <= '~' && c !in "\"(),/:;<=>?@[\\]{}"
  {
  }

  predicate FieldName(name: string) {
    name != "" && forall i | 0 <= i < |name| :: TokenChar(name[i])
  }

  /** The canonical spelling of a part, which is what duplicates and configuration keys are judged by. */
  function Norm(p: KeyPart): string {
    match p
    case IP => "ip"
    case Host => "host"
    case ASN => "asn"
    case Country => "country"
    case Header(name) => "header:" + ToLower(name)
    case Cookie(name) => "cookie:" + name
  }

  /** The parts one spec entry asks for, or None if the entry is an error. */
  function PartsOf(k: string, hasASN: bool, hasCountry: bool): Option<seq<KeyPart>> {
    var i := IndexByte(k, ':');
    if i < |k| then
      var kind, name := k[..i], k[i + 1..];
      if kind == "header" then (if FieldName(name) then Some([Header(name)]) else None)
      else if kind == "cookie" then (if FieldName(name) then Some([Cookie(name)]) else None)
      else None
    else if k == "" || k == "ip" then Some([IP])
    else if k == "host" then Some([Host])
    else if k == "ip-host" then Some([IP, Host])
    else if k == "asn" then (if hasASN then Some([ASN]) else None)
    else if k == "country" then (if hasCountry then Some([Country]) else None)
    else None
  }

  /** The first position of c, or the length. */
  function IndexByte(s: string, c: char): (i: nat)
    ensures i <= |s| && Free(s[..i], c) && (i < |s| ==> s[i] == c)
  {
    if s == "" || s[0] == c then 0 else IndexByte(s[1..], c) + 1
  }

  function Norms(parts: seq<KeyPart>): seq<string> {
    seq(|parts|, i requires 0 <= i < |parts| => Norm(parts[i]))
  }

  lemma NoSeparator(k: string)
    requires Free(k, ':')
    ensures IndexByte(k, ':') == |k|
  {
  }

  lemma FirstSeparator(kind: string, name: string)
    requires Free(kind, ':')
    ensures IndexByte(kind + ":" + name, ':') == |kind|
    ensures (kind + ":" + name)[..|kind|] == kind && (kind + ":" + name)[|kind| + 1..] == name
  {
    var k := kind + ":" + name;
    assert k[|kind|] == ':' && forall j | 0 <= j < |kind| :: k[j] == kind[j];
  }

  /** Spellings without a name; two of them need a database. */
  lemma PlainSpellings(k: string, hasASN: bool, hasCountry: bool)
    requires Free(k, ':')
    ensures k == "" || k == "ip" ==> PartsOf(k, hasASN, hasCountry) == Some([IP])
    ensures k == "host" ==> PartsOf(k, hasASN, hasCountry) == Some([Host])
    ensures k == "ip-host" ==> PartsOf(k, hasASN, hasCountry) == Some([IP, Host])
    ensures k == "asn" ==> PartsOf(k, hasASN, hasCountry) == if hasASN then Some([ASN]) else None
    ensures k == "country" ==> PartsOf(k, hasASN, hasCountry) == if hasCountry then Some([Country]) else None
  {
    NoSeparator(k);
  }

  lemma NamedSpellings(name: string, hasASN: bool, hasCountry: bool)
    ensures PartsOf("header:" + name, hasASN, hasCountry) == if FieldName(name) then Some([Header(name)]) else None
    ensures PartsOf("cookie:" + name, hasASN, hasCountry) == if FieldName(name) then Some([Cookie(name)]) else None
  {
    FirstSeparator("header", name);
    FirstSeparator("cookie", name);
    assert "header" + ":" + name == "header:" + name && "cookie" + ":" + name == "cookie:" + name;
  }

  /** Anything else is an error, above all a name after a part that takes none. */
  lemma OtherSpellings(k: string, hasASN: bool, hasCountry: bool)
    requires k !in {"", "ip", "host", "ip-host", "asn", "country"} && !("header:" <= k) && !("cookie:" <= k)
    ensures PartsOf(k, hasASN, hasCountry).None?
  {
    var i := IndexByte(k, ':');
    if i < |k| {
      assert k[..i + 1] == k[..i] + ":";
      assert "header" + ":" == "header:" && "cookie" + ":" == "cookie:";
    }
  }

  /** What has been compiled so far; ok turns false at the first error and stays so. */
  datatype Compiling = Compiling(parts: seq<KeyPart>, ok: bool)

  function AddPart(c: Compiling, p: KeyPart): Compiling {
    if Norm(p) in Norms(c.parts) then c.(ok := false) else c.(parts := c.parts + [p])
  }

  /** An entry asks for one part or two. */
  function AddEach(c: Compiling, ps: seq<KeyPart>): Compiling {
    if |ps| == 1 then AddPart(c, ps[0]) else if |ps| == 2 then AddPart(AddPart(c, ps[0]), ps[1]) else c
  }

  function AddEntry(c: Compiling, k: string, hasASN: bool, hasCountry: bool): Compiling {
    match PartsOf(k, hasASN, hasCountry)
    case None => c.(ok := false)
    case Some(ps) => AddEach(c, ps)
  }

  function AddAll(keys: seq<string>, hasASN: bool, hasCountry: bool): Compiling {
    if keys == [] then Compiling([], true)
    else AddEntry(AddAll(keys[..|keys| - 1], hasASN, hasCountry), keys[|keys| - 1], hasASN, hasCountry)
  }

  function CompiledKeys(keys: seq<string>, hasASN: bool, hasCountry: bool): Option<seq<KeyPart>> {
    var c := AddAll(if keys == [] then ["ip"] else keys, hasASN, hasCountry);
    if c.ok then Some(c.parts) else None
  }

  /** The parts of one entry, after those before it. */
  method AddParts(parts0: seq<KeyPart>, norms0: seq<string>, ok0: bool, ps: seq<KeyPart>)
    returns (parts: seq<KeyPart>, norms: seq<string>, ok: bool)
    requires norms0 == Norms(parts0) && |ps| <= 2
    ensures norms == Norms(parts) && Compiling(parts, ok) == AddEach(Compiling(parts0, ok0), ps)
  {
    parts, norms, ok := parts0, norms0, ok0;
    for j := 0 to |ps|
      invariant norms == Norms(parts)
      invariant Compiling(parts, ok) == AddEach(Compiling(parts0, ok0), ps[..j])
    {
      assert j == 1 ==> ps[..1][0] == ps[0];
      var norm := Norm(ps[j]);
      if norm in norms {
        ok := false;
      } else {
        parts, norms := parts + [ps[j]], norms + [norm];
      }
    }
    assert ps[..|ps|] == ps;
  }

  method CompileKeys(spec: seq<string>, hasASN: bool, hasCountry: bool)
    returns (r: Option<seq<KeyPart>>, norms: seq<string>)
    ensures r == CompiledKeys(spec, hasASN, hasCountry)
    ensures r.Some? ==> norms == Norms(r.value)
  {
    var keys := if |spec| == 0 then ["ip"] else spec;
    var parts, ok := [], true;
    norms := [];
    for i := 0 to |keys|
      invariant Compiling(parts, ok) == AddAll(keys[..i], hasASN, hasCountry)
      invariant norms == Norms(parts)
    {
      assert keys[..i + 1][..i] == keys[..i];
      var ps := PartsOf(keys[i], hasASN, hasCountry);
      if ps.None? {
        ok := false;
      } else {
        parts, norms, ok := AddParts(parts, norms, ok, ps.value);
      }
    }
    assert keys[..|keys|] == keys;
    return if ok then Some(parts) else None, norms;
  }

  predicate Distinct(s: seq<string>) {
    forall i, j | 0 <= i < j < |s| :: s[i] != s[j]
  }

  predicate WellNamed(p: KeyPart) {
    (p.Header? || p.Cookie?) ==> FieldName(p.name)
  }

  predicate CompiledWell(parts: seq<KeyPart>) {
    Distinct(Norms(parts)) && forall i | 0 <= i < |parts| :: WellNamed(parts[i])
  }

  lemma AddPartKeeps(c: Compiling, p: KeyPart)
    requires CompiledWell(c.parts) && WellNamed(p)
    ensures CompiledWell(AddPart(c, p).parts) && (AddPart(c, p).ok ==> c.ok && |AddPart(c, p).parts| == |c.parts| + 1)
  {
    var n := AddPart(c, p).parts;
    if n != c.parts {
      forall i, j | 0 <= i < j < |n| ensures Norms(n)[i] != Norms(n)[j] {
        assert Norms(n)[i] == Norms(c.parts)[i];
        assert j < |c.parts| ==> Norms(n)[j] == Norms(c.parts)[j];
      }
    }
  }

  lemma {:induction false} AddAllKeeps(keys: seq<string>, hasASN: bool, hasCountry: bool)
    ensures var c := AddAll(keys, hasASN, hasCountry);
            CompiledWell(c.parts) && (c.ok && keys != [] ==> c.parts != [])
  {
    if keys != [] {
      var n := |keys| - 1;
      AddAllKeeps(keys[..n], hasASN, hasCountry);
      var c := AddAll(keys[..n], hasASN, hasCountry);
      var ps := PartsOf(keys[n], hasASN, hasCountry);
      if ps.Some? {
        AddPartKeeps(c, ps.value[0]);
        if |ps.value| == 2 {
          AddPartKeeps(AddPart(c, ps.value[0]), ps.value[1]);
        }
      }
    }
  }

  /** A spec that compiles gives at least one part, no part twice, and so at most one ip part. */
  lemma CompiledKeysAreDistinct(keys: seq<string>, hasASN: bool, hasCountry: bool)
    requires CompiledKeys(keys, hasASN, hasCountry).Some?
    ensures var parts := CompiledKeys(keys, hasASN, hasCountry).value;
            parts != [] && CompiledWell(parts) && OneIpAtMost(parts)
  {
    AddAllKeeps(if keys == [] then ["ip"] else keys, hasASN, hasCountry);
    var parts := CompiledKeys(keys, hasASN, hasCountry).value;
    forall i, j | 0 <= i < j < |parts| ensures !(parts[i].IP? && parts[j].IP?) {
      assert Norms(parts)[i] != Norms(parts)[j];
    }
  }

  /** What all entries of a spec ask for, in order. */
  function AskedParts(keys: seq<string>, hasASN: bool, hasCountry: bool): Option<seq<KeyPart>> {
    if keys == [] then Some([])
    else
      match (AskedParts(keys[..|keys| - 1], hasASN, hasCountry), PartsOf(keys[|keys| - 1], hasASN, hasCountry))
      case (Some(before), Some(ps)) => Some(before + ps)
      case _ => None
  }

  lemma {:induction false} ErrorStays(keys: seq<string>, hasASN: bool, hasCountry: bool)
    ensures AddAll(keys, hasASN, hasCountry).ok ==>
              AskedParts(keys, hasASN, hasCountry) == Some(AddAll(keys, hasASN, hasCountry).parts)
    ensures var asked := AskedParts(keys, hasASN, hasCountry);
            asked.Some? && Distinct(Norms(asked.value)) ==> AddAll(keys, hasASN, hasCountry).ok
  {
    if keys != [] {
      var n := |keys| - 1;
      ErrorStays(keys[..n], hasASN, hasCountry);
      var c, ps := AddAll(keys[..n], hasASN, hasCountry), PartsOf(keys[n], hasASN, hasCountry);
      if ps.Some? {
        EachStays(c, ps.value);
        var asked := AskedParts(keys[..n], hasASN, hasCountry);
        if asked.Some? && Distinct(Norms(asked.value + ps.value)) {
          DistinctPrefix(asked.value, ps.value);
        }
      }
    }
  }

  lemma DistinctPrefix(a: seq<KeyPart>, b: seq<KeyPart>)
    requires Distinct(Norms(a + b))
    ensures Distinct(Norms(a))
  {
    assert forall i | 0 <= i < |a| :: Norms(a + b)[i] == Norms(a)[i];
  }

  lemma PartStays(c: Compiling, p: KeyPart)
    ensures var d := AddPart(c, p);
            && (d.ok <==> c.ok && Norm(p) !in Norms(c.parts)) && (d.ok ==> d.parts == c.parts + [p])
  {
  }

  lemma LastIsDistinct(a: seq<KeyPart>, p: KeyPart)
    requires Distinct(Norms(a + [p]))
    ensures Norm(p) !in Norms(a)
  {
    var all := Norms(a + [p]);
    assert all[|a|] == Norm(p) && forall i | 0 <= i < |a| :: all[i] == Norms(a)[i];
  }

  lemma EachStays(c: Compiling, ps: seq<KeyPart>)
    requires |ps| == 1 || |ps| == 2
    ensures var d := AddEach(c, ps);
            && (d.ok ==> c.ok && d.parts == c.parts + ps)
            && (c.ok && Distinct(Norms(c.parts + ps)) ==> d.ok)
  {
    var one := AddPart(c, ps[0]);
    PartStays(c, ps[0]);
    if |ps| == 1 {
      assert ps == [ps[0]];
    } else {
      PartStays(one, ps[1]);
      assert ps == [ps[0]] + [ps[1]] && c.parts + ps == (c.parts + [ps[0]]) + [ps[1]];
    }
    if c.ok && Distinct(Norms(c.parts + ps)) {
      if |ps| == 2 {
        DistinctPrefix(c.parts + [ps[0]], [ps[1]]);
        LastIsDistinct(c.parts + [ps[0]], ps[1]);
      }
      LastIsDistinct(c.parts, ps[0]);
    }
  }

  /**
   * A spec compiles if and only if each of its entries is one of the spellings and no characteristic is asked for
   * twice; it then gives what they ask for, in order, and an empty spec asks for the ip.
   */
  lemma KeysCompileIff(keys: seq<string>, hasASN: bool, hasCountry: bool)
    ensures var asked := AskedParts(if keys == [] then ["ip"] else keys, hasASN, hasCountry);
            CompiledKeys(keys, hasASN, hasCountry) ==
            if asked.Some? && Distinct(Norms(asked.value)) then asked else None
  {
    var ks := if keys == [] then ["ip"] else keys;
    ErrorStays(ks, hasASN, hasCountry);
    AddAllKeeps(ks, hasASN, hasCountry);
  }

  lemma FieldNameIsCommaFree(name: string)
    requires FieldName(name)
    ensures Free(name, ',') && Free(ToLower(name), ',')
  {
    forall i | 0 <= i < |name| ensures name[i] != ',' && ToLower(name)[i] != ',' {
      assert TokenChar(name[i]);
    }
  }

  lemma NormIsCommaFree(p: KeyPart)
    requires WellNamed(p)
    ensures Free(Norm(p), ',')
  {
    if p.Header? || p.Cookie? {
      FieldNameIsCommaFree(p.name);
    }
  }

  /** A canonical spelling of seven characters or more shows its kind in the first, or the name is "country". */
  lemma NormShowsKind(p: KeyPart)
    ensures p.Header? ==> |Norm(p)| >= 7 && Norm(p)[0] == 'h' && Norm(p)[6] == ':' && Norm(p)[7..] == ToLower(p.name)
    ensures p.Cookie? ==> |Norm(p)| >= 7 && Norm(p)[0] == 'c' && Norm(p)[6] == ':' && Norm(p)[7..] == p.name
    ensures p.Country? ==> |Norm(p)| == 7 && Norm(p)[6] == 'y'
    ensures p.IP? ==> |Norm(p)| == 2
    ensures p.Host? ==> |Norm(p)| == 4
    ensures p.ASN? ==> |Norm(p)| == 3
  {
  }

  /** Which spellings of a part are one: header names ignore case, cookie names do not. */
  lemma SameNormIff(p: KeyPart, q: KeyPart)
    ensures Norm(p) == Norm(q) <==>
            (p.IP? && q.IP?) || (p.Host? && q.Host?) || (p.ASN? && q.ASN?) || (p.Country? && q.Country?)
            || (p.Header? && q.Header? && ToLower(p.name) == ToLower(q.name))
            || (p.Cookie? && q.Cookie? && p.name == q.name)
  {
    NormShowsKind(p);
    NormShowsKind(q);
  }

  /** Equal canonical spellings resolve to equal values on every request. */
  lemma SameNormSameValue(p: KeyPart, q: KeyPart, r: Request)
    requires Norm(p) == Norm(q) && r.addr.Valid()
    ensures PartValue(p, r) == PartValue(q, r)
  {
    SameNormIff(p, q);
  }

  // The configuration key, by which live counters are carried over.

  datatype Shape = Shape(parts: seq<KeyPart>, algorithm: string, rate: nat, window: string) {
    predicate Valid() {
      parts != [] && CompiledWell(parts) && Free(algorithm, '|') && Free(window, '|')
    }
  }

  function CfgKey(s: Shape): string {
    Join(Norms(s.parts), ',') + "|" + s.algorithm + "|" + Itoa(s.rate) + "|" + s.window
  }

  /** The algorithm and everything after it contain no '|' but their own two, so they are read from the right. */
  lemma CfgKeySplits(s: Shape, t: Shape)
    requires s.Valid() && t.Valid() && CfgKey(s) == CfgKey(t)
    ensures Join(Norms(s.parts), ',') == Join(Norms(t.parts), ',') && s.algorithm == t.algorithm
    ensures Itoa(s.rate) == Itoa(t.rate) && s.window == t.window
  {
    var a, b := Join(Norms(s.parts), ','), Join(Norms(t.parts), ',');
    LastSplit(a + "|" + s.algorithm + "|" + Itoa(s.rate), s.window,
              b + "|" + t.algorithm + "|" + Itoa(t.rate), t.window, '|');
    assert Free(Itoa(s.rate), '|') && Free(Itoa(t.rate), '|');
    LastSplit(a + "|" + s.algorithm, Itoa(s.rate), b + "|" + t.algorithm, Itoa(t.rate), '|');
    LastSplit(a, s.algorithm, b, t.algorithm, '|');
  }

  /**
   * Equal configuration keys mean equal canonical key lists, algorithm, rate and window, although header and
   * cookie names may themselves contain '|'.
   */
  lemma CfgKeyIsInjective(s: Shape, t: Shape)
    requires s.Valid() && t.Valid()
    ensures CfgKey(s) == CfgKey(t) <==>
            Norms(s.parts) == Norms(t.parts) && s.algorithm == t.algorithm && s.rate == t.rate && s.window == t.window
  {
    if CfgKey(s) == CfgKey(t) {
      CfgKeySplits(s, t);
      ItoaIsInjective(s.rate, t.rate);
      NormsAreCommaFree(s.parts);
      NormsAreCommaFree(t.parts);
      FreeJoinIsInjective(Norms(s.parts), Norms(t.parts), ',');
    }
  }

  lemma NormsAreCommaFree(parts: seq<KeyPart>)
    requires CompiledWell(parts)
    ensures forall i | 0 <= i < |parts| :: Free(Norms(parts)[i], ',')
  {
    forall i | 0 <= i < |parts| ensures Free(Norms(parts)[i], ',') {
      NormIsCommaFree(parts[i]);
    }
  }

  /** Counters carried to a limit with an equal configuration key keep counting the same buckets. */
  lemma SameCfgKeySameBuckets(s: Shape, t: Shape, r: Request)
    requires s.Valid() && t.Valid() && CfgKey(s) == CfgKey(t) && r.addr.Valid()
    ensures Join(Values(s.parts, r), '\n') == Join(Values(t.parts, r), '\n')
  {
    CfgKeyIsInjective(s, t);
    assert |Norms(s.parts)| == |Norms(t.parts)|;
    forall i | 0 <= i < |s.parts| ensures Values(s.parts, r)[i] == Values(t.parts, r)[i] {
      assert Norms(s.parts)[i] == Norms(t.parts)[i];
      SameNormSameValue(s.parts[i], t.parts[i], r);
    }
    assert Values(s.parts, r) == Values(t.parts, r);
  }
}
