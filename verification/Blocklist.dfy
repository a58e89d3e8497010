/** The blocked ranges of the egress controller (pkg/egress/src/blocklist.rs). */
module Blocklist {
  import opened NetText
  import opened Wrappers

  const CLOUD_METADATA_CIDRS: seq<string> := ["169.254.169.254/32", "100.100.100.200/32", "fd00:ec2::254/128"]
  const RFC1918_CIDRS: seq<string> := ["10.0.0.0/8", "172.16.0.0/12", "192.168.0.0/16"]
  const LINK_LOCAL_CIDRS: seq<string> := ["169.254.0.0/16", "fe80::/10"]

  /** is_blocked: an octet test for IPv4, and every IPv6 address. */
  predicate IsBlocked(ip: IpAddr) {
    match ip
    case V6(_) => true
    case V4(a, b, c, d) =>
      if a == 10 then true
      else if a == 172 && 16 <= b <= 31 then true
      else if a == 192 && b == 168 then true
      else if a == 169 && b == 254 then true
      else (a, b, c, d) == (100, 100, 100, 200)
  }

  // ---------------------------------------------------------------- what the tables mean

  /** Reading a table entry the way the generator does: a colon marks IPv6. */
  function ReadCidr(text: string): Option<Cidr> {
    if ':' in text then Some(Cidr6(text)) else ParseCidr4(text)
  }

  function AddressValue(ip: IpAddr): int
    requires ip.V4?
  {
    ip.a * 0x100_0000 + ip.b * 0x1_0000 + ip.c * 0x100 + ip.d
  }

  function BlockSize(length: nat): (size: int)
    requires length <= 32
    ensures size > 0
    decreases 32 - length
  {
    if length == 32 then 1 else 2 * BlockSize(length + 1)
  }

  /** Section 3.1 of RFC 4632: the leading `length` bits agree. */
  predicate InPrefix(ip: IpAddr, cidr: Cidr)
    requires ValidCidr(cidr)
  {
    && ip.V4? && cidr.Cidr4?
    && AddressValue(ip) / BlockSize(cidr.length) == AddressValue(cidr.addr) / BlockSize(cidr.length)
  }

  function BlockedCidrs(): seq<string> {
    CLOUD_METADATA_CIDRS + RFC1918_CIDRS + LINK_LOCAL_CIDRS
  }

  ghost predicate InSomeBlockedPrefix(ip: IpAddr) {
    exists text :: text in BlockedCidrs() && ListedPrefix(ip, text)
  }

  predicate ListedPrefix(ip: IpAddr, text: string) {
    var cidr := ReadCidr(text);
    cidr.Some? && ValidCidr(cidr.value) && InPrefix(ip, cidr.value)
  }

  /** What each entry of the three tables reads as. */
  const METADATA_AWS: Cidr := Cidr4(V4(169, 254, 169, 254), 32)
  const METADATA_ALIBABA: Cidr := Cidr4(V4(100, 100, 100, 200), 32)
  const METADATA_AWS6: Cidr := Cidr6("fd00:ec2::254/128")
  const PRIVATE_10: Cidr := Cidr4(V4(10, 0, 0, 0), 8)
  const PRIVATE_172: Cidr := Cidr4(V4(172, 16, 0, 0), 12)
  const PRIVATE_192: Cidr := Cidr4(V4(192, 168, 0, 0), 16)
  const LINK_LOCAL: Cidr := Cidr4(V4(169, 254, 0, 0), 16)
  const LINK_LOCAL6: Cidr := Cidr6("fe80::/10")

  lemma AwsText()
    ensures CLOUD_METADATA_CIDRS[0] == ShowCidr(METADATA_AWS)
  {
    assert ShowOctet(169) == "169" && ShowOctet(254) == "254" && ShowOctet(32) == "32";
  }

  lemma AlibabaText()
    ensures CLOUD_METADATA_CIDRS[1] == ShowCidr(METADATA_ALIBABA)
  {
    assert ShowOctet(100) == "100" && ShowOctet(200) == "200" && ShowOctet(32) == "32";
  }

  lemma Aws6Text()
    ensures CLOUD_METADATA_CIDRS[2] == ShowCidr(METADATA_AWS6) && ':' in CLOUD_METADATA_CIDRS[2]
  {
    assert CLOUD_METADATA_CIDRS[2][4] == ':';
  }

  lemma PrivateTexts()
    ensures RFC1918_CIDRS[0] == ShowCidr(PRIVATE_10)
    ensures RFC1918_CIDRS[1] == ShowCidr(PRIVATE_172)
    ensures RFC1918_CIDRS[2] == ShowCidr(PRIVATE_192)
  {
    assert ShowOctet(10) == "10" && ShowOctet(0) == "0" && ShowOctet(8) == "8";
    assert ShowOctet(172) == "172" && ShowOctet(16) == "16" && ShowOctet(12) == "12";
    assert ShowOctet(192) == "192" && ShowOctet(168) == "168";
  }

  lemma LinkLocalTexts()
    ensures LINK_LOCAL_CIDRS[0] == ShowCidr(LINK_LOCAL)
    ensures LINK_LOCAL_CIDRS[1] == ShowCidr(LINK_LOCAL6) && ':' in LINK_LOCAL_CIDRS[1]
  {
    assert ShowOctet(169) == "169" && ShowOctet(254) == "254" && ShowOctet(0) == "0" && ShowOctet(16) == "16";
    assert LINK_LOCAL_CIDRS[1][4] == ':';
  }

  lemma ReadsAs(text: string, cidr: Cidr)
    requires cidr.Cidr4? && ValidCidr(cidr) && text == ShowCidr(cidr)
    ensures ReadCidr(text) == Some(cidr)
  {
    Cidr4RoundTrip(cidr);
  }

  /** The tables as prefixes. */
  lemma TablesRead()
    ensures ReadCidr(CLOUD_METADATA_CIDRS[0]) == Some(METADATA_AWS)
    ensures ReadCidr(CLOUD_METADATA_CIDRS[1]) == Some(METADATA_ALIBABA)
    ensures ReadCidr(CLOUD_METADATA_CIDRS[2]) == Some(METADATA_AWS6)
    ensures ReadCidr(RFC1918_CIDRS[0]) == Some(PRIVATE_10)
    ensures ReadCidr(RFC1918_CIDRS[1]) == Some(PRIVATE_172)
    ensures ReadCidr(RFC1918_CIDRS[2]) == Some(PRIVATE_192)
    ensures ReadCidr(LINK_LOCAL_CIDRS[0]) == Some(LINK_LOCAL)
    ensures ReadCidr(LINK_LOCAL_CIDRS[1]) == Some(LINK_LOCAL6)
  {
    AwsText();
    AlibabaText();
    Aws6Text();
    PrivateTexts();
    LinkLocalTexts();
    ReadsAs(CLOUD_METADATA_CIDRS[0], METADATA_AWS);
    ReadsAs(CLOUD_METADATA_CIDRS[1], METADATA_ALIBABA);
    ReadsAs(RFC1918_CIDRS[0], PRIVATE_10);
    ReadsAs(RFC1918_CIDRS[1], PRIVATE_172);
    ReadsAs(RFC1918_CIDRS[2], PRIVATE_192);
    ReadsAs(LINK_LOCAL_CIDRS[0], LINK_LOCAL);
  }

  lemma BlockSizes()
    ensures BlockSize(32) == 1 && BlockSize(16) == 0x1_0000
    ensures BlockSize(12) == 0x10_0000 && BlockSize(8) == 0x100_0000
  {
    assert BlockSize(28) == 16;
    assert BlockSize(24) == 256;
    assert BlockSize(20) == 4096;
  }

  /** The octet conditions for the prefixes that occur. */
  lemma PrefixByOctets(ip: IpAddr)
    requires ip.V4?
    ensures InPrefix(ip, METADATA_AWS) <==> ip == V4(169, 254, 169, 254)
    ensures InPrefix(ip, METADATA_ALIBABA) <==> ip == V4(100, 100, 100, 200)
    ensures InPrefix(ip, PRIVATE_10) <==> ip.a == 10
    ensures InPrefix(ip, PRIVATE_172) <==> ip.a == 172 && 16 <= ip.b <= 31
    ensures InPrefix(ip, PRIVATE_192) <==> ip.a == 192 && ip.b == 168
    ensures InPrefix(ip, LINK_LOCAL) <==> ip.a == 169 && ip.b == 254
  {
    BlockSizes();
    var v := AddressValue(ip);
    assert v / 1 == v;
    assert v / 0x1_0000 == ip.a * 0x100 + ip.b;
    assert v / 0x10_0000 == ip.a * 0x10 + ip.b / 16;
    assert v / 0x100_0000 == ip.a;
  }

  lemma ListedByOctets(ip: IpAddr)
    requires ip.V4?
    ensures ListedPrefix(ip, CLOUD_METADATA_CIDRS[0]) <==> ip == V4(169, 254, 169, 254)
    ensures ListedPrefix(ip, CLOUD_METADATA_CIDRS[1]) <==> ip == V4(100, 100, 100, 200)
    ensures !ListedPrefix(ip, CLOUD_METADATA_CIDRS[2])
    ensures ListedPrefix(ip, RFC1918_CIDRS[0]) <==> ip.a == 10
    ensures ListedPrefix(ip, RFC1918_CIDRS[1]) <==> ip.a == 172 && 16 <= ip.b <= 31
    ensures ListedPrefix(ip, RFC1918_CIDRS[2]) <==> ip.a == 192 && ip.b == 168
    ensures ListedPrefix(ip, LINK_LOCAL_CIDRS[0]) <==> ip.a == 169 && ip.b == 254
    ensures !ListedPrefix(ip, LINK_LOCAL_CIDRS[1])
  {
    TablesRead();
    PrefixByOctets(ip);
  }

  /** The octet test agrees with the tables on every IPv4 address; every IPv6 address is blocked. */
  lemma OctetTestIsTheTables(ip: IpAddr)
    ensures ip.V4? ==> (IsBlocked(ip) <==> InSomeBlockedPrefix(ip))
    ensures ip.V6? ==> IsBlocked(ip)
  {
    if ip.V4? {
      ListedByOctets(ip);
      AllListed();
      if IsBlocked(ip) {
        var text := if ip.a == 10 then RFC1918_CIDRS[0] else if ip.a == 172 then RFC1918_CIDRS[1]
                    else if ip.a == 192 then RFC1918_CIDRS[2] else if ip.a == 169 then LINK_LOCAL_CIDRS[0]
                    else CLOUD_METADATA_CIDRS[1];
        assert text in BlockedCidrs() && ListedPrefix(ip, text);
      }
    }
  }

  lemma AllListed()
    ensures forall text :: text in BlockedCidrs() <==>
              || text == CLOUD_METADATA_CIDRS[0] || text == CLOUD_METADATA_CIDRS[1]
              || text == CLOUD_METADATA_CIDRS[2] || text == RFC1918_CIDRS[0] || text == RFC1918_CIDRS[1]
              || text == RFC1918_CIDRS[2] || text == LINK_LOCAL_CIDRS[0] || text == LINK_LOCAL_CIDRS[1]
  {
  }
}
