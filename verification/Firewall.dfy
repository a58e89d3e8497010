/** The nftables ruleset of the egress controller (pkg/egress/src/firewall.rs), as rules: what it means. */
module Firewall {
  import opened Blocklist
  import opened NetText
  import opened Wrappers

  // ---------------------------------------------------------------- rules and packets

  datatype Protocol = Tcp | Udp | OtherProtocol

  datatype Cond =
    | OutLoopback
    | InLoopback
    | Established
    | DnsPort(protocol: Protocol)
    | DaddrNet(cidr: Cidr)
    | DaddrIp(ip: IpAddr)
    | Always

  datatype Action = Accept | Drop | LogDrop(prefix: string)

  datatype Rule = Rule(cond: Cond, action: Action, comment: Option<string>)

  datatype Policy = AcceptByDefault | DropByDefault

  /** A base chain; the policy decides about packets that no rule decides. */
  datatype Chain = Chain(name: string, hook: string, policy: Policy, rules: seq<Rule>)

  datatype Packet = Packet(
    outLoopback: bool, inLoopback: bool, established: bool, protocol: Protocol, port: nat, dst: IpAddr)

  /** How IPv6 prefixes match is left open: a parameter of the evaluation. */
  type V6Matcher = (string, string) -> bool

  predicate Holds(cond: Cond, p: Packet, v6: V6Matcher) {
    match cond
    case OutLoopback => p.outLoopback
    case InLoopback => p.inLoopback
    case Established => p.established
    case DnsPort(protocol) => p.protocol == protocol && p.port == 53
    case DaddrNet(cidr) =>
      if cidr.Cidr6? then p.dst.V6? && v6(cidr.text, p.dst.text) else ValidCidr(cidr) && InPrefix(p.dst, cidr)
    case DaddrIp(ip) => ip.V4? && p.dst == ip
    case Always => true
  }

  /** The action of the first rule that holds. */
  function FirstMatch(rules: seq<Rule>, p: Packet, v6: V6Matcher): Option<Action> {
    if rules == [] then None
    else if Holds(rules[0].cond, p, v6) then Some(rules[0].action)
    else FirstMatch(rules[1..], p, v6)
  }

  predicate Accepts(chain: Chain, p: Packet, v6: V6Matcher) {
    match FirstMatch(chain.rules, p, v6)
    case Some(action) => action == Accept
    case None => chain.policy == AcceptByDefault
  }

  lemma {:induction false} FirstMatchConcat(a: seq<Rule>, b: seq<Rule>, p: Packet, v6: V6Matcher)
    ensures FirstMatch(a + b, p, v6)
         == if FirstMatch(a, p, v6).Some? then FirstMatch(a, p, v6) else FirstMatch(b, p, v6)
  {
    if a == [] {
      assert a + b == b;
    } else {
      assert (a + b)[1..] == a[1..] + b;
      FirstMatchConcat(a[1..], b, p, v6);
    }
  }

  // ---------------------------------------------------------------- the intended rules

  /** An agent and its resolved addresses, in the order the ordered set yields them. */
  datatype TsiAgentRule = TsiAgentRule(agentName: string, allowedIps: seq<IpAddr>)

  const ALLOW_OUT_LOOPBACK: Rule := Rule(OutLoopback, Accept, None)
  const ALLOW_IN_LOOPBACK: Rule := Rule(InLoopback, Accept, None)
  const ALLOW_ESTABLISHED: Rule := Rule(Established, Accept, None)
  const ALLOW_DNS_UDP: Rule := Rule(DnsPort(Udp), Accept, Some("allow DNS"))
  const ALLOW_DNS_TCP: Rule := Rule(DnsPort(Tcp), Accept, Some("allow DNS"))

  function EarlyAccepts(): seq<Rule> {
    [ALLOW_OUT_LOOPBACK, ALLOW_ESTABLISHED, ALLOW_DNS_UDP, ALLOW_DNS_TCP]
  }

  function DropNet(cidr: Cidr, comment: string): Rule {
    Rule(DaddrNet(cidr), Drop, Some(comment))
  }

  function MetadataDrops(): seq<Rule> {
    [ DropNet(METADATA_AWS, "block cloud metadata"),
      DropNet(METADATA_ALIBABA, "block cloud metadata"),
      DropNet(METADATA_AWS6, "block cloud metadata") ]
  }

  function PrivateDrops(): seq<Rule> {
    [ DropNet(PRIVATE_10, "block private ranges"),
      DropNet(PRIVATE_172, "block private ranges"),
      DropNet(PRIVATE_192, "block private ranges") ]
  }

  function LinkLocalDrops(): seq<Rule> {
    [ DropNet(LINK_LOCAL, "block link-local"), DropNet(LINK_LOCAL6, "block link-local") ]
  }

  function AllowRule(agentName: string, ip: IpAddr): Rule {
    Rule(DaddrIp(ip), Accept, Some("allow for " + agentName))
  }

  function AllowRules(agentName: string, ips: seq<IpAddr>): (rules: seq<Rule>)
    ensures |rules| == |ips|
  {
    seq(|ips|, i requires 0 <= i < |ips| => AllowRule(agentName, ips[i]))
  }

  function AgentRules(agents: seq<TsiAgentRule>): seq<Rule> {
    if agents == [] then []
    else
      var last := agents[|agents| - 1];
      AgentRules(agents[..|agents| - 1]) + AllowRules(last.agentName, last.allowedIps)
  }

  function Drops(): seq<Rule> { MetadataDrops() + PrivateDrops() + LinkLocalDrops() }

  const FINAL_DROP: Rule := Rule(Always, LogDrop("nullbox-deny: "), None)

  function OutputRules(agents: seq<TsiAgentRule>): seq<Rule> {
    EarlyAccepts() + Drops() + AgentRules(agents) + [FINAL_DROP]
  }

  function InputRules(): seq<Rule> {
    [ALLOW_IN_LOOPBACK, ALLOW_ESTABLISHED]
  }

  function OutputChain(agents: seq<TsiAgentRule>): Chain {
    Chain("output", "output", DropByDefault, OutputRules(agents))
  }

  function InputChain(): Chain {
    Chain("input", "input", DropByDefault, InputRules())
  }

  function IntendedRuleset(agents: seq<TsiAgentRule>): seq<Chain> {
    [OutputChain(agents), InputChain()]
  }

  // ---------------------------------------------------------------- what the rules mean

  predicate AllowedForAll(p: Packet) {
    p.outLoopback || p.established || (p.protocol != OtherProtocol && p.port == 53)
  }

  ghost predicate HeldBySomeAgent(agents: seq<TsiAgentRule>, ip: IpAddr) {
    exists i :: 0 <= i < |agents| && ip in agents[i].allowedIps
  }

  lemma TwoRules(a: Rule, b: Rule, p: Packet, v6: V6Matcher)
    ensures FirstMatch([a, b], p, v6)
         == if Holds(a.cond, p, v6) then Some(a.action)
            else if Holds(b.cond, p, v6) then Some(b.action) else None
  {
    assert [a, b][1..] == [b] && [b][1..] == [];
    assert FirstMatch([b], p, v6) == if Holds(b.cond, p, v6) then Some(b.action) else None;
  }

  lemma ThreeRules(a: Rule, b: Rule, c: Rule, p: Packet, v6: V6Matcher)
    ensures FirstMatch([a, b, c], p, v6)
         == if Holds(a.cond, p, v6) then Some(a.action)
            else if Holds(b.cond, p, v6) then Some(b.action)
            else if Holds(c.cond, p, v6) then Some(c.action) else None
  {
    assert [a, b, c][1..] == [b, c];
    TwoRules(b, c, p, v6);
  }

  lemma EarlyAcceptsMeaning(p: Packet, v6: V6Matcher)
    ensures FirstMatch(EarlyAccepts(), p, v6) == if AllowedForAll(p) then Some(Accept) else None
  {
    var r := EarlyAccepts();
    assert r == [r[0], r[1]] + [r[2], r[3]];
    FirstMatchConcat([r[0], r[1]], [r[2], r[3]], p, v6);
    TwoRules(r[0], r[1], p, v6);
    TwoRules(r[2], r[3], p, v6);
  }

  /** Whatever the drop rules decide is a drop. */
  predicate DropsWhen(rules: seq<Rule>, p: Packet, v6: V6Matcher, blocked: bool) {
    && (FirstMatch(rules, p, v6).Some? ==> FirstMatch(rules, p, v6) == Some(Drop))
    && (p.dst.V4? ==> (FirstMatch(rules, p, v6).Some? <==> blocked))
  }

  lemma MetadataDropsMeaning(p: Packet, v6: V6Matcher)
    ensures DropsWhen(MetadataDrops(), p, v6, p.dst == V4(169, 254, 169, 254) || p.dst == V4(100, 100, 100, 200))
  {
    var r := MetadataDrops();
    ThreeRules(r[0], r[1], r[2], p, v6);
    if p.dst.V4? { PrefixByOctets(p.dst); }
  }

  lemma PrivateDropsMeaning(p: Packet, v6: V6Matcher)
    ensures DropsWhen(PrivateDrops(), p, v6, p.dst.V4? && IsPrivate(p.dst))
  {
    var r := PrivateDrops();
    ThreeRules(r[0], r[1], r[2], p, v6);
    if p.dst.V4? { PrefixByOctets(p.dst); }
  }

  /** The ranges of section 3 of RFC 1918. */
  predicate IsPrivate(ip: IpAddr)
    requires ip.V4?
  {
    ip.a == 10 || (ip.a == 172 && 16 <= ip.b <= 31) || (ip.a == 192 && ip.b == 168)
  }

  lemma LinkLocalDropsMeaning(p: Packet, v6: V6Matcher)
    ensures DropsWhen(LinkLocalDrops(), p, v6, p.dst.V4? && p.dst.a == 169 && p.dst.b == 254)
  {
    var r := LinkLocalDrops();
    TwoRules(r[0], r[1], p, v6);
    if p.dst.V4? { PrefixByOctets(p.dst); }
  }

  /** On IPv4 the drop rules catch exactly the blocked addresses. */
  lemma DropsMeaning(p: Packet, v6: V6Matcher)
    ensures DropsWhen(Drops(), p, v6, IsBlocked(p.dst))
  {
    FirstMatchConcat(MetadataDrops() + PrivateDrops(), LinkLocalDrops(), p, v6);
    FirstMatchConcat(MetadataDrops(), PrivateDrops(), p, v6);
    MetadataDropsMeaning(p, v6);
    PrivateDropsMeaning(p, v6);
    LinkLocalDropsMeaning(p, v6);
  }

  lemma {:induction false} AllowRulesMeaning(rules: seq<Rule>, p: Packet, v6: V6Matcher)
    requires forall i :: 0 <= i < |rules| ==> rules[i].action == Accept && rules[i].cond.DaddrIp?
    ensures FirstMatch(rules, p, v6)
         == if p.dst.V4? && exists i :: 0 <= i < |rules| && rules[i].cond.ip == p.dst then Some(Accept) else None
  {
    if rules != [] {
      AllowRulesMeaning(rules[1..], p, v6);
      if i :| 0 <= i < |rules| && rules[i].cond.ip == p.dst {
        if i > 0 { assert rules[1..][i - 1] == rules[i]; }
      }
    }
  }

  lemma {:induction false} AgentRulesMeaning(agents: seq<TsiAgentRule>, p: Packet, v6: V6Matcher)
    ensures FirstMatch(AgentRules(agents), p, v6)
         == if p.dst.V4? && HeldBySomeAgent(agents, p.dst) then Some(Accept) else None
  {
    if agents != [] {
      var init, last := agents[..|agents| - 1], agents[|agents| - 1];
      var rules := AllowRules(last.agentName, last.allowedIps);
      AgentRulesMeaning(init, p, v6);
      AllowRulesMeaning(rules, p, v6);
      FirstMatchConcat(AgentRules(init), rules, p, v6);
      if p.dst in last.allowedIps {
        var k :| 0 <= k < |last.allowedIps| && last.allowedIps[k] == p.dst;
        assert rules[k].cond.ip == p.dst;
        assert agents[|agents| - 1].allowedIps == last.allowedIps;
      }
      if i :| 0 <= i < |agents| && p.dst in agents[i].allowedIps {
        if i < |init| { assert init[i] == agents[i]; }
      }
      if i :| 0 <= i < |init| && p.dst in init[i].allowedIps {
        assert agents[i] == init[i];
      }
    }
  }

  /**
   * An outbound packet is accepted exactly when it is loopback, established or related, DNS, or
   * goes to an IPv4 address outside every blocked prefix that some agent holds.
   */
  lemma FirewallMeaning(agents: seq<TsiAgentRule>, p: Packet, v6: V6Matcher)
    ensures Accepts(OutputChain(agents), p, v6)
       <==> || AllowedForAll(p)
            || (p.dst.V4? && !InSomeBlockedPrefix(p.dst) && HeldBySomeAgent(agents, p.dst))
  {
    var head := EarlyAccepts() + Drops();
    FirstMatchConcat(head + AgentRules(agents), [FINAL_DROP], p, v6);
    FirstMatchConcat(head, AgentRules(agents), p, v6);
    FirstMatchConcat(EarlyAccepts(), Drops(), p, v6);
    EarlyAcceptsMeaning(p, v6);
    DropsMeaning(p, v6);
    AgentRulesMeaning(agents, p, v6);
    OctetTestIsTheTables(p.dst);
  }

  /** Unsolicited packets are kept out: only loopback and established or related traffic comes in. */
  lemma InputMeaning(p: Packet, v6: V6Matcher)
    ensures Accepts(InputChain(), p, v6) <==> p.inLoopback || p.established
  {
    TwoRules(InputRules()[0], InputRules()[1], p, v6);
  }

  /** The verdict depends on which addresses are held, not on the order of agents or addresses. */
  lemma OrderDoesNotMatter(agents: seq<TsiAgentRule>, agents': seq<TsiAgentRule>, p: Packet, v6: V6Matcher)
    requires forall ip :: HeldBySomeAgent(agents, ip) <==> HeldBySomeAgent(agents', ip)
    ensures Accepts(OutputChain(agents), p, v6) <==> Accepts(OutputChain(agents'), p, v6)
  {
    FirewallMeaning(agents, p, v6);
    FirewallMeaning(agents', p, v6);
  }

  /** An accept rule for an address that passed the filter is never shadowed by a drop. */
  lemma NoAllowRuleIsShadowed(agents: seq<TsiAgentRule>, i: nat, p: Packet, v6: V6Matcher)
    requires i < |agents| && p.dst in agents[i].allowedIps && !IsBlocked(p.dst)
    ensures Accepts(OutputChain(agents), p, v6)
  {
    FirewallMeaning(agents, p, v6);
    OctetTestIsTheTables(p.dst);
  }
}
