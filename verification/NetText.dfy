/** Dotted quads and CIDR prefixes as text: printing, strict parsing, and their round trips. */
module NetText {
  import opened Wrappers

  type octet = n: int | 0 <= n < 256

  /** IPv6 addresses are carried by their printed form; the program never looks inside them. */
  datatype IpAddr = V4(a: octet, b: octet, c: octet, d: octet) | V6(text: string)

  /** An IPv4 prefix, or an IPv6 one by its printed form. */
  datatype Cidr = Cidr4(addr: IpAddr, length: octet) | Cidr6(text: string)

  predicate ValidCidr(cidr: Cidr) {
    cidr.Cidr4? ==> cidr.addr.V4? && cidr.length <= 32
  }

  // ---------------------------------------------------------------- splitting

  /** The text before and after the first `c`. */
  function SplitFirst(s: string, c: char): (r: Option<(string, string)>)
    ensures r.Some? ==> s == r.value.0 + [c] + r.value.1
  {
    if s == "" then None
    else if s[0] == c then Some(("", s[1..]))
    else
      match SplitFirst(s[1..], c)
      case None => None
      case Some((x, y)) => Some(([s[0]] + x, y))
  }

  lemma {:induction false} SplitFirstAt(a: string, c: char, rest: string)
    requires c !in a
    ensures SplitFirst(a + [c] + rest, c) == Some((a, rest))
  {
    if a == "" {
      assert a + [c] + rest == [c] + rest;
    } else {
      assert (a + [c] + rest)[1..] == a[1..] + [c] + rest;
      SplitFirstAt(a[1..], c, rest);
      assert [a[0]] + a[1..] == a;
    }
  }

  lemma {:induction false} SplitFirstNone(s: string, c: char)
    requires c !in s
    ensures SplitFirst(s, c) == None
  {
  }

  // ---------------------------------------------------------------- numbers below 256

  function Digit(n: int): char
    requires 0 <= n < 10
  {
    ('0' as int + n) as char
  }

  function DigitOf(c: char): Option<int> {
    if '0' <= c <= '9' then Some(c as int - '0' as int) else None
  }

  function ShowOctet(n: octet): (s: string)
    ensures 1 <= |s| <= 3 && forall c :: c in s ==> '0' <= c <= '9'
  {
    if n < 10 then [Digit(n)]
    else if n < 100 then [Digit(n / 10), Digit(n % 10)]
    else [Digit(n / 100), Digit(n / 10 % 10), Digit(n % 10)]
  }

  /** Decimal without sign, spaces or leading zeros. */
  function ParseOctet(s: string): Option<octet> {
    if |s| == 1 then
      DigitOf(s[0])
    else if |s| == 2 then
      match (DigitOf(s[0]), DigitOf(s[1]))
      case (Some(x), Some(y)) => if x > 0 then Some(10 * x + y) else None
      case _ => None
    else if |s| == 3 then
      match (DigitOf(s[0]), DigitOf(s[1]), DigitOf(s[2]))
      case (Some(x), Some(y), Some(z)) =>
        var n := 100 * x + 10 * y + z;
        if x > 0 && n < 256 then Some(n) else None
      case _ => None
    else None
  }

  lemma OctetRoundTrip(n: octet)
    ensures ParseOctet(ShowOctet(n)) == Some(n)
  {
    if n >= 100 { assert n == 100 * (n / 100) + 10 * (n / 10 % 10) + n % 10; }
  }

  // ---------------------------------------------------------------- dotted quads

  function ShowIp(ip: IpAddr): string {
    match ip
    case V4(a, b, c, d) =>
      ShowOctet(a) + "." + (ShowOctet(b) + "." + (ShowOctet(c) + "." + ShowOctet(d)))
    case V6(text) => text
  }

  function ParseIp4(s: string): Option<IpAddr> {
    match SplitFirst(s, '.')
    case None => None
    case Some((x, r1)) =>
      match SplitFirst(r1, '.')
      case None => None
      case Some((y, r2)) =>
        match SplitFirst(r2, '.')
        case None => None
        case Some((z, w)) =>
          match (ParseOctet(x), ParseOctet(y), ParseOctet(z), ParseOctet(w))
          case (Some(a), Some(b), Some(c), Some(d)) => Some(V4(a, b, c, d))
          case _ => None
  }

  lemma Ip4RoundTrip(ip: IpAddr)
    requires ip.V4?
    ensures ParseIp4(ShowIp(ip)) == Some(ip)
  {
    var V4(a, b, c, d) := ip;
    var t3 := ShowOctet(c) + "." + ShowOctet(d);
    var t2 := ShowOctet(b) + "." + t3;
    SplitFirstAt(ShowOctet(a), '.', t2);
    SplitFirstAt(ShowOctet(b), '.', t3);
    SplitFirstAt(ShowOctet(c), '.', ShowOctet(d));
    OctetRoundTrip(a);
    OctetRoundTrip(b);
    OctetRoundTrip(c);
    OctetRoundTrip(d);
  }

  /** The characters a dotted quad or an IPv4 prefix is made of. */
  predicate IsQuadChar(c: char) { '0' <= c <= '9' || c == '.' || c == '/' }

  lemma Ip4Chars(ip: IpAddr)
    requires ip.V4?
    ensures ShowIp(ip) != "" && '/' !in ShowIp(ip) && forall c :: c in ShowIp(ip) ==> IsQuadChar(c)
  {
  }

  // ---------------------------------------------------------------- prefixes

  function ShowCidr(cidr: Cidr): string {
    match cidr
    case Cidr4(addr, length) => ShowIp(addr) + "/" + ShowOctet(length)
    case Cidr6(text) => text
  }

  function ParseCidr4(s: string): Option<Cidr> {
    match SplitFirst(s, '/')
    case None => None
    case Some((addr, length)) =>
      match (ParseIp4(addr), ParseOctet(length))
      case (Some(ip), Some(n)) => if n <= 32 then Some(Cidr4(ip, n)) else None
      case _ => None
  }

  lemma Cidr4RoundTrip(cidr: Cidr)
    requires cidr.Cidr4? && ValidCidr(cidr)
    ensures ParseCidr4(ShowCidr(cidr)) == Some(cidr)
    ensures '/' in ShowCidr(cidr) && forall c :: c in ShowCidr(cidr) ==> IsQuadChar(c)
  {
    Ip4Chars(cidr.addr);
    SplitFirstAt(ShowIp(cidr.addr), '/', ShowOctet(cidr.length));
    Ip4RoundTrip(cidr.addr);
    OctetRoundTrip(cidr.length);
    assert ShowCidr(cidr)[|ShowIp(cidr.addr)|] == '/';
  }
}
