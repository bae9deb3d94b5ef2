/** The string helpers of package `helper`: namespace-list membership, the
    public host name an Ingress gets, its first DNS label, and the hex text
    of random bytes. The random source is not modelled: the bytes, and the
    prefix made from them, are parameters. */
module Helper {
  import opened GoLib

  newtype byte = x: int | 0 <= x < 256

  /** AreNamespaceInWhiteList: the namespace occurs in the list. */
  function AreNamespaceInWhiteList(namespace: string, whitelist: seq<string>): (r: bool)
    ensures r <==> namespace in whitelist
  {
    if |whitelist| == 0 then false
    else whitelist[0] == namespace || AreNamespaceInWhiteList(namespace, whitelist[1..])
  }

  // ---- hex.EncodeToString ------------------------------------------------

  predicate IsLowerHex(c: char) {
    '0' <= c <= '9' || 'a' <= c <= 'f'
  }

  function HexDigit(n: nat): (c: char)
    requires n < 16
    ensures IsLowerHex(c)
  {
    if n < 10 then ('0' as int + n) as char else ('a' as int + n - 10) as char
  }

  /** GetRandomValue(n) once its n random bytes are drawn: their lowercase
      hex encoding, high nibble first. */
  function GetRandomValue(b: seq<byte>): (r: string)
    ensures |r| == 2 * |b|
    ensures forall i :: 0 <= i < |r| ==> IsLowerHex(r[i])
  {
    if |b| == 0 then ""
    else [HexDigit(b[0] as int / 16), HexDigit(b[0] as int % 16)] + GetRandomValue(b[1..])
  }

  /** The value of a lowercase hex digit; the inverse of HexDigit. */
  function HexValue(c: char): (n: nat)
    requires IsLowerHex(c)
    ensures n < 16 && HexDigit(n) == c
  {
    if c <= '9' then c as int - '0' as int else c as int - 'a' as int + 10
  }

  /** hex.DecodeString on the text GetRandomValue produces. */
  ghost function DecodeHex(s: string): seq<byte>
    requires |s| % 2 == 0
    requires forall i :: 0 <= i < |s| ==> IsLowerHex(s[i])
  {
    if |s| == 0 then []
    else [(HexValue(s[0]) * 16 + HexValue(s[1])) as byte] + DecodeHex(s[2..])
  }

  /** The encoding loses nothing: decoding it gives the bytes back. */
  lemma {:induction false} RandomValueDecodes(b: seq<byte>)
    ensures DecodeHex(GetRandomValue(b)) == b
  {
    if |b| > 0 {
      var r := GetRandomValue(b);
      var hi, lo := b[0] as int / 16, b[0] as int % 16;
      assert r[0] == HexDigit(hi) && r[1] == HexDigit(lo);
      HexDigitValue(hi);
      HexDigitValue(lo);
      assert r[2..] == GetRandomValue(b[1..]);
      RandomValueDecodes(b[1..]);
    }
  }

  lemma HexDigitValue(n: nat)
    requires n < 16
    ensures HexValue(HexDigit(n)) == n
  {
  }

  // ---- host names --------------------------------------------------------

  /** generateDNSPrefix: an xid followed by the hex text of 6 random bytes. */
  function GenerateDnsPrefix(xid: string, random: seq<byte>): (r: string)
    requires |random| == 6
    ensures |r| == |xid| + 12 && r[..|xid|] == xid
    ensures forall i :: |xid| <= i < |r| ==> IsLowerHex(r[i])
  {
    xid + GetRandomValue(random)
  }

  /** GetPublicDns, with the random prefix given. The source tests
      `strings.HasPrefix(".", domain)`, which holds only for "" and ".", so
      every other domain, one with a leading dot included, gets a dot of
      its own between prefix and domain. */
  function GetPublicDns(dnsPrefix: string, domain: string): (r: string)
    ensures domain == "" || domain == "." ==> r == dnsPrefix + domain
    ensures domain != "" && domain != "." ==> r == dnsPrefix + "." + domain
  {
    if HasPrefix(".", domain) then dnsPrefix + domain else dnsPrefix + "." + domain
  }

  /** getDNSPrefix: the text before the first dot. Without a dot the source
      slices to index -1 and panics, so a dot is required. */
  function GetDnsPrefix(dns: string): (r: string)
    requires '.' in dns
    ensures |r| < |dns| && dns[..|r|] == r && dns[|r|] == '.'
    ensures '.' !in r
  {
    dns[..Index(dns, '.')]
  }

  /** A dot-free prefix is the first DNS label of the host built from it. */
  lemma PublicDnsFirstLabel(dnsPrefix: string, domain: string)
    requires '.' !in dnsPrefix
    requires domain != ""
    ensures '.' in GetPublicDns(dnsPrefix, domain)
    ensures GetDnsPrefix(GetPublicDns(dnsPrefix, domain)) == dnsPrefix
  {
    var h := GetPublicDns(dnsPrefix, domain);
    assert h[|dnsPrefix|] == '.';
    assert h[..|dnsPrefix|] == dnsPrefix;
  }

  /** A generated prefix never holds a dot when its xid does not. */
  lemma GeneratedPrefixHasNoDot(xid: string, random: seq<byte>)
    requires |random| == 6
    requires '.' !in xid
    ensures '.' !in GenerateDnsPrefix(xid, random)
  {
    var r := GenerateDnsPrefix(xid, random);
    forall i | 0 <= i < |r| ensures r[i] != '.' {
      if i < |xid| {
        assert r[i] == r[..|xid|][i];
      }
    }
  }
}
