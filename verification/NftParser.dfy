/** Reading the emitted subset of the nft language back: lexer, parser and the round trip. */
module NftParser {
  import opened Blocklist
  import opened Firewall
  import opened NetText
  import opened NftText
  import opened Wrappers

  // ---------------------------------------------------------------- lexer

  /** Blanks separate, quotes group, a hash sign starts a comment. */
  function Lex(s: string): seq<Token>
    decreases |s|
  {
    if s == "" then []
    else if s[0] == ' ' then Lex(s[1..])
    else if s[0] == '#' then []
    else if s[0] == '"' then
      match SplitFirst(s[1..], '"')
      case None => [Word(s)]
      case Some((q, rest)) => [Quoted(q)] + Lex(rest)
    else
      match SplitFirst(s, ' ')
      case None => [Word(s)]
      case Some((w, rest)) => [Word(w)] + Lex(rest)
  }

  function SplitLines(s: string): seq<string>
    decreases |s|
  {
    if s == "" then []
    else
      match SplitFirst(s, '\n')
      case None => [s]
      case Some((line, rest)) => [line] + SplitLines(rest)
  }

  // ---------------------------------------------------------------- parser

  function ParseCond(ts: seq<Token>): Option<(Cond, seq<Token>)> {
    if [Word("oif"), Word("lo")] <= ts then Some((OutLoopback, ts[2..]))
    else if [Word("iif"), Word("lo")] <= ts then Some((InLoopback, ts[2..]))
    else if [Word("ct"), Word("state"), Word("established,related")] <= ts then Some((Established, ts[3..]))
    else if [Word("tcp"), Word("dport"), Word("53")] <= ts then Some((DnsPort(Tcp), ts[3..]))
    else if [Word("udp"), Word("dport"), Word("53")] <= ts then Some((DnsPort(Udp), ts[3..]))
    else if |ts| > 2 && ts[1] == Word("daddr") && ts[2].Word? then
      if ts[0] == Word("ip6") then Some((DaddrNet(Cidr6(ts[2].w)), ts[3..]))
      else if ts[0] == Word("ip") then
        (match (ParseIp4(ts[2].w), ParseCidr4(ts[2].w))
         case (Some(ip), _) => Some((DaddrIp(ip), ts[3..]))
         case (None, Some(cidr)) => Some((DaddrNet(cidr), ts[3..]))
         case _ => None)
      else None
    else Some((Always, ts))
  }

  function ParseAction(ts: seq<Token>): Option<(Action, seq<Token>)> {
    if [Word("accept")] <= ts then Some((Accept, ts[1..]))
    else if [Word("drop")] <= ts then Some((Drop, ts[1..]))
    else if |ts| >= 4 && ts[0] == Word("log") && ts[1] == Word("prefix") && ts[2].Quoted? && ts[3] == Word("drop") then
      Some((LogDrop(ts[2].q), ts[4..]))
    else None
  }

  function ParseComment(ts: seq<Token>): Option<Option<string>> {
    if ts == [] then Some(None)
    else if |ts| == 2 && ts[0] == Word("comment") && ts[1].Quoted? then Some(Some(ts[1].q))
    else None
  }

  function ParseRule(ts: seq<Token>): Option<Rule> {
    match ParseCond(ts)
    case None => None
    case Some((cond, ts1)) =>
      match ParseAction(ts1)
      case None => None
      case Some((action, ts2)) =>
        match ParseComment(ts2)
        case None => None
        case Some(comment) => Some(Rule(cond, action, comment))
  }

  datatype State =
    | Start
    | Flushed
    | InTable(done: seq<Chain>)
    | InChain(done: seq<Chain>, name: string, head: Option<(string, Policy)>, rules: seq<Rule>)
    | Closed(done: seq<Chain>)

  function ParseHeader(ts: seq<Token>): Option<(string, Policy)> {
    if |ts| == 8 && [Word("type"), Word("filter"), Word("hook")] <= ts && ts[3].Word?
       && ts[4] == Word("priority") && ts[5] == Word("0;") && ts[6] == Word("policy")
    then
      if ts[7] == Word("drop;") then Some((ts[3].w, DropByDefault))
      else if ts[7] == Word("accept;") then Some((ts[3].w, AcceptByDefault))
      else None
    else None
  }

  /** One line, already lexed. */
  function Step(st: State, ts: seq<Token>): Option<State> {
    if ts == [] then Some(st)
    else
      match st
      case Start => if ts == [Word("flush"), Word("ruleset")] then Some(Flushed) else None
      case Flushed =>
        if ts == [Word("table"), Word("inet"), Word("nullbox"), Word("{")] then Some(InTable([])) else None
      case InTable(done) =>
        if ts == [Word("}")] then Some(Closed(done))
        else if |ts| == 3 && ts[0] == Word("chain") && ts[1].Word? && ts[2] == Word("{") then
          Some(InChain(done, ts[1].w, None, []))
        else None
      case InChain(done, name, head, rules) =>
        if ts == [Word("}")] then
          (match head
           case None => None
           case Some((hook, policy)) => Some(InTable(done + [Chain(name, hook, policy, rules)])))
        else if head.None? then
          (match ParseHeader(ts)
           case None => None
           case Some(found) => Some(InChain(done, name, Some(found), [])))
        else
          (match ParseRule(ts)
           case None => None
           case Some(rule) => Some(InChain(done, name, head, rules + [rule])))
      case Closed(_) => None
  }

  function ParseLines(st: State, lines: seq<string>): Option<State>
    decreases |lines|
  {
    if lines == [] then Some(st)
    else
      match Step(st, Lex(lines[0]))
      case None => None
      case Some(st') => ParseLines(st', lines[1..])
  }

  /** The chains of a rules file. */
  function ParseRuleset(text: string): Option<seq<Chain>> {
    match ParseLines(Start, SplitLines(text))
    case Some(Closed(done)) => Some(done)
    case _ => None
  }

  // ---------------------------------------------------------------- lexing undoes joining

  predicate GoodToken(t: Token) {
    match t
    case Word(w) => w != "" && w[0] != '#' && w[0] != '"' && ' ' !in w && '\n' !in w
    case Quoted(q) => '"' !in q && '\n' !in q
  }

  predicate GoodTokens(ts: seq<Token>) { forall i :: 0 <= i < |ts| ==> GoodToken(ts[i]) }

  lemma LexBlank(rest: string)
    ensures Lex(" " + rest) == Lex(rest)
  {
  }

  lemma LexWord(w: string, rest: string)
    requires GoodToken(Word(w))
    ensures Lex(w + " " + rest) == [Word(w)] + Lex(rest)
  {
    SplitFirstAt(w, ' ', rest);
    assert w + " " + rest == w + [' '] + rest;
  }

  lemma LexQuoted(q: string, rest: string)
    requires GoodToken(Quoted(q))
    ensures Lex(("\"" + q + "\"") + " " + rest) == [Quoted(q)] + Lex(rest)
  {
    var s := ("\"" + q + "\"") + " " + rest;
    SplitFirstAt(q, '"', " " + rest);
    assert s[1..] == q + ['"'] + (" " + rest);
    LexBlank(rest);
  }

  lemma LexToken(t: Token, rest: string)
    requires GoodToken(t)
    ensures Lex(ShowToken(t) + " " + rest) == [t] + Lex(rest)
  {
    hide Lex;
    match t
    case Word(w) => LexWord(w, rest);
    case Quoted(q) => LexQuoted(q, rest);
  }

  lemma LexLastToken(t: Token)
    requires GoodToken(t)
    ensures Lex(ShowToken(t)) == [t]
  {
    var s := ShowToken(t);
    match t
    case Word(w) =>
      SplitFirstNone(w, ' ');
    case Quoted(q) =>
      SplitFirstAt(q, '"', "");
      assert s[1..] == q + ['"'] + "";
  }

  lemma {:induction false} LexJoin(ts: seq<Token>)
    requires GoodTokens(ts)
    ensures Lex(Join(ts)) == ts
  {
    hide ShowToken;
    if ts == [] {
    } else if |ts| == 1 {
      LexLastToken(ts[0]);
      assert ts == [ts[0]];
    } else {
      LexToken(ts[0], Join(ts[1..]));
      LexJoin(ts[1..]);
      assert ts == [ts[0]] + ts[1..];
    }
  }

  predicate GoodLine(line: Line) {
    if line.Remark? then '\n' !in line.text else GoodTokens(LineTokens(line))
  }

  lemma LexIndented(text: string)
    ensures Lex("" + text) == Lex(text) && Lex("  " + text) == Lex(text) && Lex("    " + text) == Lex(text)
  {
    hide Lex;
    assert "" + text == text;
    LexBlank(text);
    LexBlank(" " + text);
    LexBlank("  " + text);
    LexBlank("   " + text);
    assert "  " + text == " " + (" " + text);
    assert "   " + text == " " + ("  " + text);
    assert "    " + text == " " + ("   " + text);
  }

  lemma LexRemark(text: string)
    ensures Lex("    # " + text) == []
  {
    LexIndented("# " + text);
    assert "    # " + text == "    " + ("# " + text);
    assert Lex("# " + text) == [];
  }

  /** The lexer reads every emitted line as the tokens it was printed from. */
  lemma LexLine(line: Line)
    requires GoodLine(line)
    ensures Lex(LineText(line)) == LineTokens(line)
  {
    hide LineTokens;
    hide Lex;
    if line.Remark? {
      LexRemark(line.text);
      NoTokens(line);
    } else {
      hide Join;
      LexJoin(LineTokens(line));
      LexIndented(Join(LineTokens(line)));
    }
  }

  lemma NoTokens(line: Line)
    requires line.Remark?
    ensures LineTokens(line) == []
  {
  }

  lemma {:induction false} JoinHasNoNewline(ts: seq<Token>)
    requires GoodTokens(ts)
    ensures '\n' !in Join(ts)
  {
    if ts != [] {
      assert GoodToken(ts[0]);
      assert '\n' !in ShowToken(ts[0]);
      JoinHasNoNewline(ts[1..]);
    }
  }

  lemma LineHasNoNewline(line: Line)
    requires GoodLine(line)
    ensures '\n' !in LineText(line)
  {
    if !line.Remark? { JoinHasNoNewline(LineTokens(line)); }
  }

  function LineTexts(lines: seq<Line>): (texts: seq<string>)
    ensures |texts| == |lines|
  {
    seq(|lines|, i requires 0 <= i < |lines| => LineText(lines[i]))
  }

  predicate GoodLines(lines: seq<Line>) { forall i :: 0 <= i < |lines| ==> GoodLine(lines[i]) }

  lemma SplitFirstLine(line: string, rest: string)
    requires '\n' !in line
    ensures SplitLines((line + "\n") + rest) == [line] + SplitLines(rest)
  {
    SplitFirstAt(line, '\n', rest);
    assert (line + "\n") + rest == line + ['\n'] + rest;
  }

  /** Printing appends lines at the end, splitting takes them off the front. */
  lemma {:induction false} SplitText(lines: seq<Line>, rest: string)
    requires GoodLines(lines)
    ensures SplitLines(Text(lines) + rest) == LineTexts(lines) + SplitLines(rest)
    decreases |lines|
  {
    hide LineText;
    hide GoodLine;
    hide SplitLines;
    if lines == [] {
      assert Text(lines) + rest == rest;
    } else {
      var init, last := lines[..|lines| - 1], lines[|lines| - 1];
      var tail := LineText(last) + "\n";
      LineHasNoNewline(last);
      assert Text(lines) + rest == Text(init) + (tail + rest);
      SplitText(init, tail + rest);
      SplitFirstLine(LineText(last), rest);
      assert LineTexts(lines) == LineTexts(init) + [LineText(last)];
    }
  }

  // ---------------------------------------------------------------- parsing rules back

  predicate GoodCond(cond: Cond) {
    match cond
    case DnsPort(protocol) => protocol != OtherProtocol
    case DaddrNet(cidr) => ValidCidr(cidr) && (cidr.Cidr6? ==> GoodToken(Word(cidr.text)))
    case DaddrIp(ip) => ip.V4?
    case _ => true
  }

  predicate GoodText(s: string) { '"' !in s && '\n' !in s }

  predicate GoodRule(rule: Rule) {
    && GoodCond(rule.cond)
    && (rule.action.LogDrop? ==> GoodText(rule.action.prefix))
    && (rule.comment.Some? ==> GoodText(rule.comment.value))
  }

  predicate GoodRules(rules: seq<Rule>) { forall i :: 0 <= i < |rules| ==> GoodRule(rules[i]) }

  /** What tells the keywords apart. */
  lemma Keywords()
    ensures "oif"[0] == 'o' && "ct"[0] == 'c' && "tcp"[0] == 't' && "udp"[0] == 'u'
    ensures "iif"[0] == 'i' && "iif"[1] == 'i' && "ip"[0] == 'i' && "ip"[1] == 'p'
    ensures "ip6"[0] == 'i' && "ip6"[1] == 'p' && |"ip"| == 2 && |"ip6"| == 3
    ensures "accept"[0] == 'a' && "drop"[0] == 'd' && "log"[0] == 'l'
    ensures "daddr"[0] == 'd' && "comment"[0] == 'c' && "prefix"[0] == 'p' && "state"[0] == 's'
    ensures "lo"[0] == 'l' && "dport"[1] == 'p' && "daddr"[1] == 'a'
  {
  }

  lemma SlashIsNoOctet(s: string)
    requires '/' in s
    ensures ParseOctet(s) == None
  {
  }

  /** A text with a slash is no plain address. */
  lemma SlashIsNoAddress(s: string)
    requires '/' in s
    ensures ParseIp4(s) == None
  {
    if ParseIp4(s).Some? {
      var (x, r1) := SplitFirst(s, '.').value;
      var (y, r2) := SplitFirst(r1, '.').value;
      var (z, w) := SplitFirst(r2, '.').value;
      assert '/' in x || '/' in y || '/' in z || '/' in w;
      if '/' in x { SlashIsNoOctet(x); }
      if '/' in y { SlashIsNoOctet(y); }
      if '/' in z { SlashIsNoOctet(z); }
      if '/' in w { SlashIsNoOctet(w); }
    }
  }

  lemma CondRoundTrip(cond: Cond, rest: seq<Token>)
    requires GoodCond(cond) && !cond.Always?
    ensures ParseCond(CondTokens(cond) + rest) == Some((cond, rest))
  {
    hide ShowCidr;
    hide ShowIp;
    hide ParseIp4;
    hide ParseCidr4;
    Keywords();
    var ts := CondTokens(cond) + rest;
    assert ts[|CondTokens(cond)|..] == rest;
    match cond
    case DaddrNet(cidr) =>
      if cidr.Cidr4? {
        Cidr4RoundTrip(cidr);
        SlashIsNoAddress(ShowCidr(cidr));
      } else {
        Cidr6Text(cidr);
      }
    case DaddrIp(ip) => Ip4RoundTrip(ip);
    case _ =>
  }

  lemma NoCond(action: Action, comment: Option<string>)
    ensures ParseCond(ActionTokens(action) + CommentTokens(comment))
         == Some((Always, ActionTokens(action) + CommentTokens(comment)))
  {
    hide ParseIp4;
    hide ParseCidr4;
    Keywords();
    var ts := ActionTokens(action) + CommentTokens(comment);
    assert ts[0] == ActionTokens(action)[0];
    if action.LogDrop? {
      assert ts[1] == Word("prefix");
    } else if comment.Some? {
      assert ts[1] == Word("comment");
    }
  }

  lemma ActionRoundTrip(action: Action, comment: Option<string>)
    ensures ParseAction(ActionTokens(action) + CommentTokens(comment)) == Some((action, CommentTokens(comment)))
    ensures ParseComment(CommentTokens(comment)) == Some(comment)
  {
    Keywords();
    var ts := ActionTokens(action) + CommentTokens(comment);
    assert ts[0] == ActionTokens(action)[0];
    assert ts[|ActionTokens(action)|..] == CommentTokens(comment);
  }

  /** Every rule of the subset is read back from its tokens. */
  lemma RuleRoundTrip(rule: Rule)
    requires GoodRule(rule)
    ensures ParseRule(RuleTokens(rule)) == Some(rule)
  {
    hide ParseCond;
    hide ParseAction;
    hide ParseComment;
    hide ActionTokens;
    hide CommentTokens;
    var rest := ActionTokens(rule.action) + CommentTokens(rule.comment);
    assert RuleTokens(rule) == CondTokens(rule.cond) + rest;
    ActionRoundTrip(rule.action, rule.comment);
    if rule.cond.Always? {
      NoCond(rule.action, rule.comment);
      assert CondTokens(rule.cond) + rest == rest;
    } else {
      CondRoundTrip(rule.cond, rest);
    }
  }

  lemma QuadWordIsGood(w: string)
    requires w != "" && forall c :: c in w ==> IsQuadChar(c)
    ensures GoodToken(Word(w))
  {
    assert w[0] in w;
  }

  lemma StateWordsAreGood()
    ensures GoodToken(Word("oif")) && GoodToken(Word("iif")) && GoodToken(Word("lo"))
    ensures GoodToken(Word("ct")) && GoodToken(Word("state")) && GoodToken(Word("established,related"))
  {
  }

  lemma FixedWordsAreGood()
    ensures GoodToken(Word("tcp")) && GoodToken(Word("udp")) && GoodToken(Word("dport")) && GoodToken(Word("53"))
    ensures GoodToken(Word("ip")) && GoodToken(Word("ip6")) && GoodToken(Word("daddr"))
  {
  }

  lemma CondIsGood(cond: Cond)
    requires GoodCond(cond)
    ensures GoodTokens(CondTokens(cond))
  {
    hide GoodToken;
    hide ShowIp;
    hide ShowCidr;
    StateWordsAreGood();
    FixedWordsAreGood();
    match cond
    case DaddrNet(cidr) =>
      if cidr.Cidr4? {
        Cidr4RoundTrip(cidr);
        QuadWordIsGood(ShowCidr(cidr));
      } else {
        Cidr6Text(cidr);
      }
    case DaddrIp(ip) =>
      Ip4Chars(ip);
      QuadWordIsGood(ShowIp(ip));
    case _ =>
  }

  lemma Cidr6Text(cidr: Cidr)
    requires cidr.Cidr6?
    ensures ShowCidr(cidr) == cidr.text
  {
  }

  lemma RuleIsGood(rule: Rule)
    requires GoodRule(rule)
    ensures GoodLine(RuleLine(rule))
  {
    hide CondTokens;
    Keywords();
    CondIsGood(rule.cond);
    assert GoodTokens(ActionTokens(rule.action));
    assert GoodTokens(CommentTokens(rule.comment));
  }

  // ---------------------------------------------------------------- parsing lines back

  function RunLines(st: State, lines: seq<Line>): Option<State>
    decreases |lines|
  {
    if lines == [] then Some(st)
    else
      match Step(st, LineTokens(lines[0]))
      case None => None
      case Some(st') => RunLines(st', lines[1..])
  }

  lemma {:induction false} ParsesAsRun(st: State, lines: seq<Line>)
    requires GoodLines(lines)
    ensures ParseLines(st, LineTexts(lines)) == RunLines(st, lines)
    decreases |lines|
  {
    hide Step;
    hide Lex;
    hide LineText;
    hide LineTokens;
    hide GoodLine;
    if lines != [] {
      LexLine(lines[0]);
      assert LineTexts(lines)[1..] == LineTexts(lines[1..]);
      var next := Step(st, LineTokens(lines[0]));
      if next.Some? { ParsesAsRun(next.value, lines[1..]); }
    }
  }

  lemma {:induction false} RunConcat(st: State, a: seq<Line>, b: seq<Line>)
    ensures RunLines(st, a + b)
         == match RunLines(st, a) case None => None case Some(mid) => RunLines(mid, b)
    decreases |a|
  {
    hide Step;
    hide LineTokens;
    if a == [] {
      assert a + b == b;
    } else {
      assert (a + b)[1..] == a[1..] + b;
      var next := Step(st, LineTokens(a[0]));
      if next.Some? { RunConcat(next.value, a[1..], b); }
    }
  }

  /** Lines inside a chain: rules, and lines that carry no tokens. */
  predicate BodyLine(line: Line) {
    line.Blank? || line.Remark? || (line.RuleLine? && GoodRule(line.rule))
  }

  predicate Body(lines: seq<Line>) { forall i :: 0 <= i < |lines| ==> BodyLine(lines[i]) }

  function RulesIn(lines: seq<Line>): seq<Rule> {
    if lines == [] then []
    else (if lines[0].RuleLine? then [lines[0].rule] else []) + RulesIn(lines[1..])
  }

  lemma {:induction false} RulesInConcat(a: seq<Line>, b: seq<Line>)
    ensures RulesIn(a + b) == RulesIn(a) + RulesIn(b)
  {
    if a == [] {
      assert a + b == b;
    } else {
      var head := if a[0].RuleLine? then [a[0].rule] else [];
      assert (a + b)[1..] == a[1..] + b && (a + b)[0] == a[0];
      assert RulesIn(a + b) == head + RulesIn(a[1..] + b);
      RulesInConcat(a[1..], b);
      assert head + (RulesIn(a[1..]) + RulesIn(b)) == (head + RulesIn(a[1..])) + RulesIn(b);
    }
  }

  lemma {:induction false} RulesInRuleLines(rules: seq<Rule>)
    ensures RulesIn(RuleLines(rules)) == rules
  {
    if rules != [] {
      assert RuleLines(rules)[1..] == RuleLines(rules[1..]);
      RulesInRuleLines(rules[1..]);
    }
  }

  lemma BodyStep(done: seq<Chain>, name: string, head: (string, Policy), rules: seq<Rule>, line: Line)
    requires BodyLine(line)
    ensures Step(InChain(done, name, Some(head), rules), LineTokens(line))
         == Some(InChain(done, name, Some(head), rules + RulesIn([line])))
  {
    hide ParseRule;
    hide RuleTokens;
    hide GoodRule;
    assert [line][1..] == [];
    if line.RuleLine? {
      assert GoodRule(line.rule);
      RuleRoundTrip(line.rule);
      RuleTokensShape(line.rule);
      assert RulesIn([line]) == [line.rule] + RulesIn([]);
      assert [line.rule] + [] == [line.rule];
    } else {
      assert RulesIn([line]) == [] + RulesIn([]);
      assert rules + [] == rules;
    }
  }

  /** A rule is never mistaken for the end of a chain. */
  lemma RuleTokensShape(rule: Rule)
    ensures RuleTokens(rule) != [] && RuleTokens(rule) != [Word("}")]
  {
    hide ShowCidr;
    hide ShowIp;
    if rule.cond.Always? {
      assert RuleTokens(rule)[0] == ActionTokens(rule.action)[0];
    } else {
      assert |RuleTokens(rule)| > 1;
    }
  }

  lemma {:induction false} RunBody(done: seq<Chain>, name: string, head: (string, Policy), rules: seq<Rule>, lines: seq<Line>)
    requires Body(lines)
    ensures RunLines(InChain(done, name, Some(head), rules), lines)
         == Some(InChain(done, name, Some(head), rules + RulesIn(lines)))
    decreases |lines|
  {
    hide Step;
    hide LineTokens;
    hide BodyLine;
    if lines == [] {
      assert rules + [] == rules;
    } else {
      BodyStep(done, name, head, rules, lines[0]);
      RunBody(done, name, head, rules + RulesIn([lines[0]]), lines[1..]);
      assert [lines[0]] + lines[1..] == lines;
      RulesInConcat([lines[0]], lines[1..]);
      assert rules + RulesIn([lines[0]]) + RulesIn(lines[1..]) == rules + RulesIn(lines);
    }
  }

  // ---------------------------------------------------------------- the round trip

  /** The manifest rule for names: ASCII letters and digits, hyphen, underscore. */
  predicate SafeName(name: string) { forall c :: c in name ==> SafeChar(c) }

  predicate SafeChar(c: char) {
    'a' <= c <= 'z' || 'A' <= c <= 'Z' || '0' <= c <= '9' || c == '-' || c == '_'
  }

  predicate Printable(agent: TsiAgentRule) {
    SafeName(agent.agentName) && forall i :: 0 <= i < |agent.allowedIps| ==> agent.allowedIps[i].V4?
  }

  predicate AllPrintable(agents: seq<TsiAgentRule>) {
    forall i :: 0 <= i < |agents| ==> Printable(agents[i])
  }

  lemma AllowTextsAreGood()
    ensures GoodText("allow DNS") && GoodText("nullbox-deny: ") && GoodText("allow for ")
  {
  }

  lemma DropTextsAreGood()
    ensures GoodText("block cloud metadata") && GoodText("block private ranges") && GoodText("block link-local")
  {
  }

  lemma RemarksAreGood()
    ensures '\n' !in "Agent: " && '\n' !in NO_AGENTS
  {
    assert '\n' !in "No agents registered ";
    assert '\n' !in "— all external traffic blocked";
  }

  lemma Ip6WordsAreGood()
    ensures GoodToken(Word(METADATA_AWS6.text)) && GoodToken(Word(LINK_LOCAL6.text))
  {
  }

  lemma FixedRulesAreGood()
    ensures GoodRules(EarlyAccepts()) && GoodRules(InputRules()) && GoodRule(FINAL_DROP)
    ensures GoodRules(MetadataDrops()) && GoodRules(PrivateDrops()) && GoodRules(LinkLocalDrops())
  {
    hide GoodText;
    hide GoodToken;
    AllowTextsAreGood();
    DropTextsAreGood();
    Ip6WordsAreGood();
  }

  lemma AllowRulesAreGood(agent: TsiAgentRule)
    requires Printable(agent)
    ensures GoodRules(AllowRules(agent.agentName, agent.allowedIps))
    ensures '\n' !in "Agent: " + agent.agentName
  {
    AllowTextsAreGood();
    RemarksAreGood();
    assert forall c :: c in agent.agentName ==> SafeChar(c);
    assert GoodText("allow for " + agent.agentName);
  }

  /** Lines of a chain body that also print well. */
  predicate Emitted(lines: seq<Line>) { Body(lines) && GoodLines(lines) }

  lemma RuleLinesAreEmitted(rules: seq<Rule>)
    requires GoodRules(rules)
    ensures Emitted(RuleLines(rules))
  {
    hide GoodLine;
    hide GoodRule;
    forall i | 0 <= i < |rules| ensures GoodLine(RuleLines(rules)[i]) && BodyLine(RuleLines(rules)[i]) {
      assert GoodRule(rules[i]);
      RuleIsGood(rules[i]);
    }
  }

  lemma {:induction false} AgentBlocksAreEmitted(agents: seq<TsiAgentRule>)
    requires AllPrintable(agents)
    ensures Emitted(AgentBlocks(agents)) && RulesIn(AgentBlocks(agents)) == AgentRules(agents)
  {
    hide GoodRule;
    hide Printable;
    hide GoodRules;
    if agents != [] {
      var init, last := agents[..|agents| - 1], agents[|agents| - 1];
      assert forall i :: 0 <= i < |init| ==> init[i] == agents[i];
      AgentBlocksAreEmitted(init);
      AgentBlockIsEmitted(last);
      RulesInConcat(AgentBlocks(init), AgentBlock(last));
    }
  }

  lemma AgentBlockIsEmitted(agent: TsiAgentRule)
    requires Printable(agent)
    ensures Emitted(AgentBlock(agent))
    ensures RulesIn(AgentBlock(agent)) == AllowRules(agent.agentName, agent.allowedIps)
  {
    hide GoodRules;
    hide LineTokens;
    var rules := AllowRules(agent.agentName, agent.allowedIps);
    var remark := Remark("Agent: " + agent.agentName);
    AllowRulesAreGood(agent);
    RuleLinesAreEmitted(rules);
    BlankIsEmitted();
    RulesInConcat([remark] + RuleLines(rules), [Blank]);
    RulesInConcat([remark], RuleLines(rules));
    RulesInRuleLines(rules);
    assert [remark][1..] == [] && [Blank][1..] == [];
    assert [] + rules == rules && rules + [] == rules;
  }

  lemma BlankIsEmitted()
    ensures Emitted([Blank]) && RulesIn([Blank]) == []
  {
  }

  lemma OneRule(rule: Rule)
    requires GoodRule(rule)
    ensures Emitted([RuleLine(rule)]) && RulesIn([RuleLine(rule)]) == [rule]
  {
    RuleIsGood(rule);
    assert [RuleLine(rule)][1..] == [];
  }

  lemma EmittedConcat(a: seq<Line>, b: seq<Line>)
    requires Emitted(a) && Emitted(b)
    ensures Emitted(a + b) && RulesIn(a + b) == RulesIn(a) + RulesIn(b)
  {
    hide GoodLine;
    hide BodyLine;
    RulesInConcat(a, b);
  }

  /** Rules separated by blank lines where the file has them. */
  function OpeningBody(): seq<Line> {
    [Blank] + [RuleLine(ALLOW_OUT_LOOPBACK)] + [Blank] + [RuleLine(ALLOW_ESTABLISHED)] + [Blank]
    + [RuleLine(ALLOW_DNS_UDP)] + [RuleLine(ALLOW_DNS_TCP)] + [Blank]
  }

  lemma OpeningBodyIsEmitted()
    ensures Emitted(OpeningBody()) && RulesIn(OpeningBody()) == EarlyAccepts()
  {
    hide Emitted;
    hide RulesIn;
    hide GoodRule;
    FixedRulesAreGood();
    assert forall i :: 0 <= i < 4 ==> GoodRule(EarlyAccepts()[i]);
    assert GoodRule(EarlyAccepts()[0]) && GoodRule(EarlyAccepts()[1]);
    assert GoodRule(EarlyAccepts()[2]) && GoodRule(EarlyAccepts()[3]);
    BlankIsEmitted();
    OneRule(ALLOW_OUT_LOOPBACK);
    OneRule(ALLOW_ESTABLISHED);
    OneRule(ALLOW_DNS_UDP);
    OneRule(ALLOW_DNS_TCP);
    var a := [Blank] + [RuleLine(ALLOW_OUT_LOOPBACK)];
    EmittedConcat([Blank], [RuleLine(ALLOW_OUT_LOOPBACK)]);
    EmittedConcat(a, [Blank]);
    EmittedConcat(a + [Blank], [RuleLine(ALLOW_ESTABLISHED)]);
    var b := a + [Blank] + [RuleLine(ALLOW_ESTABLISHED)];
    EmittedConcat(b, [Blank]);
    EmittedConcat(b + [Blank], [RuleLine(ALLOW_DNS_UDP)]);
    var c := b + [Blank] + [RuleLine(ALLOW_DNS_UDP)];
    EmittedConcat(c, [RuleLine(ALLOW_DNS_TCP)]);
    EmittedConcat(c + [RuleLine(ALLOW_DNS_TCP)], [Blank]);
  }

  lemma DropLinesAreEmitted()
    ensures Emitted(DropLines()) && RulesIn(DropLines()) == Drops()
  {
    hide Emitted;
    hide RulesIn;
    hide RuleLines;
    hide MetadataDrops;
    hide PrivateDrops;
    hide LinkLocalDrops;
    FixedRulesAreGood();
    BlankIsEmitted();
    var m, p, l := RuleLines(MetadataDrops()), RuleLines(PrivateDrops()), RuleLines(LinkLocalDrops());
    RuleLinesAreEmitted(MetadataDrops());
    RuleLinesAreEmitted(PrivateDrops());
    RuleLinesAreEmitted(LinkLocalDrops());
    RulesInRuleLines(MetadataDrops());
    RulesInRuleLines(PrivateDrops());
    RulesInRuleLines(LinkLocalDrops());
    EmittedConcat(m, [Blank]);
    EmittedConcat(m + [Blank], p);
    EmittedConcat(m + [Blank] + p, l);
    EmittedConcat(m + [Blank] + p + l, [Blank]);
    assert RulesIn(DropLines()) == Drops();
  }

  lemma AgentLinesAreEmitted(agents: seq<TsiAgentRule>)
    requires AllPrintable(agents)
    ensures Emitted(AgentLines(agents)) && RulesIn(AgentLines(agents)) == AgentRules(agents)
  {
    hide GoodRules;
    AgentBlocksAreEmitted(agents);
    if agents == [] {
      RemarksAreGood();
      assert [Remark(NO_AGENTS)][1..] == [];
    }
  }

  function OutputBody(agents: seq<TsiAgentRule>): seq<Line> {
    OpeningBody() + DropLines() + AgentLines(agents) + [RuleLine(FINAL_DROP)]
  }

  lemma OutputBodyIsEmitted(agents: seq<TsiAgentRule>)
    requires AllPrintable(agents)
    ensures Emitted(OutputBody(agents)) && RulesIn(OutputBody(agents)) == OutputRules(agents)
  {
    hide Emitted;
    hide RulesIn;
    hide OpeningBody;
    hide DropLines;
    hide AgentLines;
    hide GoodRule;
    hide AllPrintable;
    OpeningBodyIsEmitted();
    DropLinesAreEmitted();
    AgentLinesAreEmitted(agents);
    FixedRulesAreGood();
    OneRule(FINAL_DROP);
    EmittedConcat(OpeningBody(), DropLines());
    EmittedConcat(OpeningBody() + DropLines(), AgentLines(agents));
    EmittedConcat(OpeningBody() + DropLines() + AgentLines(agents), [RuleLine(FINAL_DROP)]);
  }

  const OUT: (string, Policy) := ("output", DropByDefault)
  const IN: (string, Policy) := ("input", DropByDefault)

  const OUTPUT_HEAD: seq<Line> := [Flush] + [Blank] + [OpenTable] + [OpenChain("output")] + [Header("output", DropByDefault)]
  const INPUT_HEAD: seq<Line> := [CloseChain] + [Blank] + [OpenChain("input")] + [Header("input", DropByDefault)]
  const TAIL: seq<Line> := [CloseChain] + [CloseTable]

  lemma LayoutShape(agents: seq<TsiAgentRule>)
    ensures Layout(agents) == OUTPUT_HEAD + OutputBody(agents) + INPUT_HEAD + RuleLines(InputRules()) + TAIL
  {
    hide DropLines;
    hide AgentLines;
    assert OpeningLines() == OUTPUT_HEAD + OpeningBody();
    assert ClosingLines() == [RuleLine(FINAL_DROP)] + INPUT_HEAD + RuleLines(InputRules()) + TAIL;
  }

  lemma TableWordsAreGood()
    ensures GoodToken(Word("flush")) && GoodToken(Word("ruleset")) && GoodToken(Word("table"))
    ensures GoodToken(Word("inet")) && GoodToken(Word("nullbox")) && GoodToken(Word("{")) && GoodToken(Word("}"))
    ensures GoodToken(Word("chain")) && GoodToken(Word("output")) && GoodToken(Word("input"))
  {
  }

  lemma HeaderWordsAreGood()
    ensures GoodToken(Word("type")) && GoodToken(Word("filter")) && GoodToken(Word("hook"))
    ensures GoodToken(Word("priority")) && GoodToken(Word("0;")) && GoodToken(Word("policy")) && GoodToken(Word("drop;"))
  {
  }

  lemma FramesAreGood()
    ensures GoodLines(OUTPUT_HEAD) && GoodLines(INPUT_HEAD) && GoodLines(TAIL)
  {
    hide GoodToken;
    TableWordsAreGood();
    HeaderWordsAreGood();
    assert GoodLine(Flush) && GoodLine(Blank) && GoodLine(OpenTable) && GoodLine(CloseChain) && GoodLine(CloseTable);
    assert GoodLine(OpenChain("output")) && GoodLine(OpenChain("input"));
    assert GoodLine(Header("output", DropByDefault)) && GoodLine(Header("input", DropByDefault));
  }

  lemma RunOne(st: State, line: Line, st': State)
    requires Step(st, LineTokens(line)) == Some(st')
    ensures RunLines(st, [line]) == Some(st')
  {
  }

  lemma RunOutputHead()
    ensures RunLines(Start, OUTPUT_HEAD) == Some(InChain([], "output", Some(OUT), []))
  {
    hide RunLines;
    RunOne(Start, Flush, Flushed);
    RunOne(Flushed, Blank, Flushed);
    RunOne(Flushed, OpenTable, InTable([]));
    RunOne(InTable([]), OpenChain("output"), InChain([], "output", None, []));
    RunOne(InChain([], "output", None, []), Header("output", DropByDefault), InChain([], "output", Some(OUT), []));
    RunConcat(Start, [Flush], [Blank]);
    RunConcat(Start, [Flush] + [Blank], [OpenTable]);
    RunConcat(Start, [Flush] + [Blank] + [OpenTable], [OpenChain("output")]);
    RunConcat(Start, [Flush] + [Blank] + [OpenTable] + [OpenChain("output")], [Header("output", DropByDefault)]);
  }

  lemma RunInputHead(rules: seq<Rule>)
    ensures RunLines(InChain([], "output", Some(OUT), rules), INPUT_HEAD)
         == Some(InChain([Chain("output", "output", DropByDefault, rules)], "input", Some(IN), []))
  {
    hide RunLines;
    var st := InChain([], "output", Some(OUT), rules);
    var done := [Chain("output", "output", DropByDefault, rules)];
    assert [] + done == done;
    RunOne(st, CloseChain, InTable(done));
    RunOne(InTable(done), Blank, InTable(done));
    RunOne(InTable(done), OpenChain("input"), InChain(done, "input", None, []));
    RunOne(InChain(done, "input", None, []), Header("input", DropByDefault), InChain(done, "input", Some(IN), []));
    RunConcat(st, [CloseChain], [Blank]);
    RunConcat(st, [CloseChain] + [Blank], [OpenChain("input")]);
    RunConcat(st, [CloseChain] + [Blank] + [OpenChain("input")], [Header("input", DropByDefault)]);
  }

  lemma RunTail(done: seq<Chain>, rules: seq<Rule>)
    ensures RunLines(InChain(done, "input", Some(IN), rules), TAIL)
         == Some(Closed(done + [Chain("input", "input", DropByDefault, rules)]))
  {
    hide RunLines;
    var st := InChain(done, "input", Some(IN), rules);
    var all := done + [Chain("input", "input", DropByDefault, rules)];
    RunOne(st, CloseChain, InTable(all));
    RunOne(InTable(all), CloseTable, Closed(all));
    RunConcat(st, [CloseChain], [CloseTable]);
  }

  lemma RunLayout(agents: seq<TsiAgentRule>)
    requires AllPrintable(agents)
    ensures RunLines(Start, Layout(agents)) == Some(Closed(IntendedRuleset(agents)))
    ensures GoodLines(Layout(agents))
  {
    hide RunLines;
    hide GoodLine;
    hide OutputBody;
    hide OutputRules;
    hide InputRules;
    hide Layout;
    hide RuleLines;
    hide BodyLine;
    hide GoodRule;
    hide RulesIn;
    hide AllPrintable;
    var body, inputs := OutputBody(agents), RuleLines(InputRules());
    var rules := OutputRules(agents);
    var chain := OutputChain(agents);
    LayoutShape(agents);
    OutputBodyIsEmitted(agents);
    FixedRulesAreGood();
    RuleLinesAreEmitted(InputRules());
    RulesInRuleLines(InputRules());
    FramesAreGood();
    RunOutputHead();
    RunBody([], "output", OUT, [], body);
    assert [] + rules == rules;
    RunConcat(Start, OUTPUT_HEAD, body);
    RunInputHead(rules);
    RunConcat(Start, OUTPUT_HEAD + body, INPUT_HEAD);
    RunBody([chain], "input", IN, [], inputs);
    assert [] + InputRules() == InputRules();
    RunConcat(Start, OUTPUT_HEAD + body + INPUT_HEAD, inputs);
    RunTail([chain], InputRules());
    RunConcat(Start, OUTPUT_HEAD + body + INPUT_HEAD + inputs, TAIL);
    assert [chain] + [InputChain()] == IntendedRuleset(agents);
  }

  /**
   * For every list of agents with manifest names and IPv4 addresses, the emitted text reads back
   * as exactly the intended rules, in order.
   */
  lemma RenderingRoundTrip(agents: seq<TsiAgentRule>)
    requires forall i, c :: 0 <= i < |agents| && c in agents[i].agentName ==>
               'a' <= c <= 'z' || 'A' <= c <= 'Z' || '0' <= c <= '9' || c == '-' || c == '_'
    requires forall i, k :: 0 <= i < |agents| && 0 <= k < |agents[i].allowedIps| ==> agents[i].allowedIps[k].V4?
    ensures ParseRuleset(Text(Layout(agents))) == Some(IntendedRuleset(agents))
  {
    hide Layout;
    hide Text;
    hide GoodLines;
    hide ParseLines;
    hide RunLines;
    assert AllPrintable(agents);
    hide AllPrintable;
    var lines := Layout(agents);
    RunLayout(agents);
    SplitText(lines, "");
    assert Text(lines) + "" == Text(lines);
    assert LineTexts(lines) + [] == LineTexts(lines);
    ParsesAsRun(Start, lines);
  }
}
