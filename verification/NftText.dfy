/** The ruleset as text (pkg/egress/src/firewall.rs): its layout line by line, and the generator. */
module NftText {
  import opened Blocklist
  import opened Firewall
  import opened NetText
  import opened Wrappers

  // ---------------------------------------------------------------- tokens and lines

  datatype Token = Word(w: string) | Quoted(q: string)

  function ShowToken(token: Token): string {
    match token
    case Word(w) => w
    case Quoted(q) => "\"" + q + "\""
  }

  /** Tokens with one blank between neighbours. */
  function Join(tokens: seq<Token>): string {
    if tokens == [] then ""
    else if |tokens| == 1 then ShowToken(tokens[0])
    else ShowToken(tokens[0]) + " " + Join(tokens[1..])
  }

  datatype Line =
    | Blank
    | Remark(text: string)
    | Flush
    | OpenTable
    | OpenChain(name: string)
    | Header(hook: string, policy: Policy)
    | RuleLine(rule: Rule)
    | CloseChain
    | CloseTable

  function ProtocolName(protocol: Protocol): string {
    match protocol
    case Tcp => "tcp"
    case Udp => "udp"
    case OtherProtocol => "other"
  }

  function Family(cidr: Cidr): string {
    if cidr.Cidr6? then "ip6" else "ip"
  }

  function CondTokens(cond: Cond): seq<Token> {
    match cond
    case OutLoopback => [Word("oif"), Word("lo")]
    case InLoopback => [Word("iif"), Word("lo")]
    case Established => [Word("ct"), Word("state"), Word("established,related")]
    case DnsPort(protocol) => [Word(ProtocolName(protocol)), Word("dport"), Word("53")]
    case DaddrNet(cidr) => [Word(Family(cidr)), Word("daddr"), Word(ShowCidr(cidr))]
    case DaddrIp(ip) => [Word("ip"), Word("daddr"), Word(ShowIp(ip))]
    case Always => []
  }

  function ActionTokens(action: Action): seq<Token> {
    match action
    case Accept => [Word("accept")]
    case Drop => [Word("drop")]
    case LogDrop(prefix) => [Word("log"), Word("prefix"), Quoted(prefix), Word("drop")]
  }

  function CommentTokens(comment: Option<string>): seq<Token> {
    match comment
    case None => []
    case Some(text) => [Word("comment"), Quoted(text)]
  }

  function RuleTokens(rule: Rule): seq<Token> {
    CondTokens(rule.cond) + ActionTokens(rule.action) + CommentTokens(rule.comment)
  }

  function LineTokens(line: Line): seq<Token> {
    match line
    case Blank => []
    case Remark(_) => []
    case Flush => [Word("flush"), Word("ruleset")]
    case OpenTable => [Word("table"), Word("inet"), Word("nullbox"), Word("{")]
    case OpenChain(name) => [Word("chain"), Word(name), Word("{")]
    case Header(hook, policy) =>
      [Word("type"), Word("filter"), Word("hook"), Word(hook), Word("priority"), Word("0;"), Word("policy"),
       Word(if policy == DropByDefault then "drop;" else "accept;")]
    case RuleLine(rule) => RuleTokens(rule)
    case CloseChain => [Word("}")]
    case CloseTable => [Word("}")]
  }

  function Indent(line: Line): string {
    match line
    case Blank => ""
    case Flush => ""
    case OpenTable => ""
    case CloseTable => ""
    case OpenChain(_) => "  "
    case CloseChain => "  "
    case _ => "    "
  }

  function LineText(line: Line): string {
    if line.Remark? then "    # " + line.text else Indent(line) + Join(LineTokens(line))
  }

  function Text(lines: seq<Line>): string {
    if lines == [] then ""
    else Text(lines[..|lines| - 1]) + (LineText(lines[|lines| - 1]) + "\n")
  }

  // ---------------------------------------------------------------- the layout of the file

  function RuleLines(rules: seq<Rule>): (lines: seq<Line>)
    ensures |lines| == |rules|
  {
    seq(|rules|, i requires 0 <= i < |rules| => RuleLine(rules[i]))
  }

  function OpeningLines(): seq<Line> {
    [Flush, Blank, OpenTable, OpenChain("output"), Header("output", DropByDefault), Blank,
     RuleLine(ALLOW_OUT_LOOPBACK), Blank, RuleLine(ALLOW_ESTABLISHED), Blank,
     RuleLine(ALLOW_DNS_UDP), RuleLine(ALLOW_DNS_TCP), Blank]
  }

  function DropLines(): seq<Line> {
    RuleLines(MetadataDrops()) + [Blank] + RuleLines(PrivateDrops()) + RuleLines(LinkLocalDrops()) + [Blank]
  }

  const NO_AGENTS: string := "No agents registered " + "— all external traffic blocked"

  function AgentBlock(agent: TsiAgentRule): seq<Line> {
    [Remark("Agent: " + agent.agentName)] + RuleLines(AllowRules(agent.agentName, agent.allowedIps)) + [Blank]
  }

  function AgentBlocks(agents: seq<TsiAgentRule>): seq<Line> {
    if agents == [] then []
    else AgentBlocks(agents[..|agents| - 1]) + AgentBlock(agents[|agents| - 1])
  }

  function AgentLines(agents: seq<TsiAgentRule>): seq<Line> {
    if agents == [] then [Remark(NO_AGENTS)] else AgentBlocks(agents)
  }

  function ClosingLines(): seq<Line> {
    [RuleLine(FINAL_DROP), CloseChain, Blank, OpenChain("input"), Header("input", DropByDefault),
     RuleLine(ALLOW_IN_LOOPBACK), RuleLine(ALLOW_ESTABLISHED), CloseChain, CloseTable]
  }

  function Layout(agents: seq<TsiAgentRule>): seq<Line> {
    OpeningLines() + DropLines() + AgentLines(agents) + ClosingLines()
  }

  // ---------------------------------------------------------------- the generator

  /** push_str of one line; `lines` records what has been pushed. */
  method Push(rules: string, line: Line, ghost lines: seq<Line>) returns (out: string, ghost more: seq<Line>)
    requires rules == Text(lines)
    ensures out == Text(lines + [line]) && more == lines + [line]
  {
    out := rules + (LineText(line) + "\n");
    more := lines + [line];
    assert more[..|lines|] == lines;
  }

  /** A run of fixed lines. */
  method PushFixed(rules: string, fixed: seq<Line>, ghost lines: seq<Line>) returns (out: string)
    requires rules == Text(lines)
    ensures out == Text(lines + fixed)
  {
    hide LineText;
    out := rules;
    ghost var pushed := lines;
    for i := 0 to |fixed|
      invariant pushed == lines + fixed[..i] && out == Text(pushed)
    {
      out, pushed := Push(out, fixed[i], pushed);
    }
    assert fixed[..|fixed|] == fixed;
  }

  /** One loop over a table of blocked prefixes. */
  method PushDrops(rules: string, cidrs: seq<string>, comment: string, ghost lines: seq<Line>, ghost drops: seq<Rule>)
    returns (out: string)
    requires rules == Text(lines) && |drops| == |cidrs|
    requires forall i :: 0 <= i < |cidrs| ==> EntryFor(cidrs[i], drops[i], comment)
    ensures out == Text(lines + RuleLines(drops))
  {
    hide EntryFor;
    hide Text;
    out := rules;
    assert lines + RuleLines([]) == lines;
    for i := 0 to |cidrs|
      invariant out == Text(lines + RuleLines(drops[..i]))
    {
      assert lines + RuleLines(drops[..i + 1]) == (lines + RuleLines(drops[..i])) + [RuleLine(drops[i])];
      out := PushDrop(out, cidrs[i], comment, lines + RuleLines(drops[..i]), drops[i]);
    }
    assert drops[..|drops|] == drops;
  }

  /** A colon in an entry selects the IPv6 family. */
  method PushDrop(rules: string, cidr: string, comment: string, ghost lines: seq<Line>, ghost drop: Rule)
    returns (out: string)
    requires rules == Text(lines) && EntryFor(cidr, drop, comment)
    ensures out == Text(lines + [RuleLine(drop)])
  {
    hide LineText;
    hide Join;
    var family := if ':' in cidr then "ip6" else "ip";
    var tokens := [Word(family), Word("daddr"), Word(cidr)] + ActionTokens(Drop) + CommentTokens(Some(comment));
    DropText(cidr, drop, comment);
    assert (lines + [RuleLine(drop)])[..|lines|] == lines;
    out := rules + (("    " + Join(tokens)) + "\n");
  }

  /** A table entry, and the rule it stands for. */
  ghost predicate EntryFor(text: string, rule: Rule, comment: string) {
    && rule.cond.DaddrNet?
    && rule == DropNet(rule.cond.cidr, comment)
    && text == ShowCidr(rule.cond.cidr)
    && (rule.cond.cidr.Cidr6? <==> ':' in text)
  }

  lemma DropText(text: string, rule: Rule, comment: string)
    requires EntryFor(text, rule, comment)
    ensures "    " + Join([Word(if ':' in text then "ip6" else "ip"), Word("daddr"), Word(text)]
                          + ActionTokens(Drop) + CommentTokens(Some(comment)))
         == LineText(RuleLine(rule))
  {
    hide Join;
    hide ShowCidr;
  }

  method PushAllDrops(rules: string, ghost lines: seq<Line>) returns (out: string)
    requires rules == Text(lines)
    ensures out == Text(lines + DropLines())
  {
    hide LineText;
    hide EntryFor;
    hide MetadataDrops;
    hide PrivateDrops;
    hide LinkLocalDrops;
    ghost var pushed := lines;
    MetadataEntries();
    out := PushDrops(rules, CLOUD_METADATA_CIDRS, "block cloud metadata", pushed, MetadataDrops());
    pushed := pushed + RuleLines(MetadataDrops());
    out, pushed := Push(out, Blank, pushed);
    PrivateEntries();
    out := PushDrops(out, RFC1918_CIDRS, "block private ranges", pushed, PrivateDrops());
    pushed := pushed + RuleLines(PrivateDrops());
    LinkLocalEntries();
    out := PushDrops(out, LINK_LOCAL_CIDRS, "block link-local", pushed, LinkLocalDrops());
    pushed := pushed + RuleLines(LinkLocalDrops());
    out, pushed := Push(out, Blank, pushed);
    assert pushed == lines + DropLines();
  }

  lemma Entry(text: string, cidr: Cidr, comment: string)
    requires text == ShowCidr(cidr) && ReadCidr(text) == Some(cidr)
    ensures EntryFor(text, DropNet(cidr, comment), comment)
  {
  }

  lemma MetadataEntries()
    ensures |MetadataDrops()| == |CLOUD_METADATA_CIDRS| == 3
    ensures forall i :: 0 <= i < 3 ==> EntryFor(CLOUD_METADATA_CIDRS[i], MetadataDrops()[i], "block cloud metadata")
  {
    hide ShowCidr;
    hide ReadCidr;
    TablesRead();
    AwsText();
    AlibabaText();
    Aws6Text();
    Entry(CLOUD_METADATA_CIDRS[0], METADATA_AWS, "block cloud metadata");
    Entry(CLOUD_METADATA_CIDRS[1], METADATA_ALIBABA, "block cloud metadata");
    Entry(CLOUD_METADATA_CIDRS[2], METADATA_AWS6, "block cloud metadata");
  }

  lemma PrivateEntries()
    ensures |PrivateDrops()| == |RFC1918_CIDRS| == 3
    ensures forall i :: 0 <= i < 3 ==> EntryFor(RFC1918_CIDRS[i], PrivateDrops()[i], "block private ranges")
  {
    hide ShowCidr;
    hide ReadCidr;
    TablesRead();
    PrivateTexts();
    Entry(RFC1918_CIDRS[0], PRIVATE_10, "block private ranges");
    Entry(RFC1918_CIDRS[1], PRIVATE_172, "block private ranges");
    Entry(RFC1918_CIDRS[2], PRIVATE_192, "block private ranges");
  }

  lemma LinkLocalEntries()
    ensures |LinkLocalDrops()| == |LINK_LOCAL_CIDRS| == 2
    ensures forall i :: 0 <= i < 2 ==> EntryFor(LINK_LOCAL_CIDRS[i], LinkLocalDrops()[i], "block link-local")
  {
    hide ShowCidr;
    hide ReadCidr;
    TablesRead();
    LinkLocalTexts();
    Entry(LINK_LOCAL_CIDRS[0], LINK_LOCAL, "block link-local");
    Entry(LINK_LOCAL_CIDRS[1], LINK_LOCAL6, "block link-local");
  }

  method PushAgent(rules: string, agent: TsiAgentRule, ghost lines: seq<Line>) returns (out: string)
    requires rules == Text(lines)
    ensures out == Text(lines + AgentBlock(agent))
  {
    hide LineText;
    ghost var pushed;
    out, pushed := Push(rules, Remark("Agent: " + agent.agentName), lines);
    ghost var start := pushed;
    var allow := AllowRules(agent.agentName, agent.allowedIps);
    for i := 0 to |agent.allowedIps|
      invariant pushed == start + RuleLines(allow[..i]) && out == Text(pushed)
    {
      out, pushed := Push(out, RuleLine(AllowRule(agent.agentName, agent.allowedIps[i])), pushed);
      assert RuleLines(allow[..i + 1]) == RuleLines(allow[..i]) + [RuleLine(allow[i])];
    }
    assert allow[..|allow|] == allow;
    out, pushed := Push(out, Blank, pushed);
    assert pushed == lines + AgentBlock(agent);
  }

  /** generate_tsi_ruleset. */
  method GenerateTsiRuleset(agents: seq<TsiAgentRule>) returns (content: string)
    ensures content == Text(Layout(agents))
  {
    hide LineText;
    hide OpeningLines;
    hide ClosingLines;
    hide DropLines;
    ghost var lines := OpeningLines();
    content := PushFixed("", OpeningLines(), []);
    assert [] + OpeningLines() == OpeningLines();
    content := PushAllDrops(content, lines);
    lines := lines + DropLines();
    ghost var start := lines;
    if agents == [] {
      content, lines := Push(content, Remark(NO_AGENTS), lines);
    } else {
      for i := 0 to |agents|
        invariant lines == start + AgentBlocks(agents[..i]) && content == Text(lines)
      {
        content := PushAgent(content, agents[i], lines);
        lines := lines + AgentBlock(agents[i]);
        assert agents[..i + 1][..i] == agents[..i];
      }
      assert agents[..|agents|] == agents;
    }
    assert lines == start + AgentLines(agents);
    content := PushFixed(content, ClosingLines(), lines);
  }
}
