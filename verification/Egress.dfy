/** The egress daemon (pkg/egress/src/main.rs): an agent map, and a rules file kept in step with it. */
module Egress {
  import opened Blocklist
  import opened Collections
  import opened Firewall
  import opened NetText
  import opened NftParser
  import opened NftText
  import opened Wrappers

  datatype AgentEntry = AgentEntry(domains: seq<string>, ips: set<IpAddr>)

  type AgentMap = map<string, AgentEntry>

  /** `applied` is the agent map the rules file was last written from. */
  datatype EgressState = EgressState(agents: AgentMap, applied: AgentMap)

  /** What the resolver returned and whether the file could be written come from outside. */
  datatype Request =
    | Add(name: string, domains: seq<string>, resolved: set<IpAddr>, written: bool)
    | Remove(name: string, written: bool)

  datatype Response = Ok | BadName | NotRegistered | ApplyFailed

  function Filtered(resolved: set<IpAddr>): set<IpAddr> {
    set ip | ip in resolved && !IsBlocked(ip)
  }

  /** Does the request change the map, and so rewrite the file? */
  predicate Regenerates(s: EgressState, r: Request) {
    r.name != "" && (r.Remove? ==> r.name in s.agents)
  }

  function AgentsAfter(agents: AgentMap, r: Request): AgentMap {
    if r.name == "" then agents
    else
      match r
      case Add(name, domains, resolved, _) => agents[name := AgentEntry(domains, Filtered(resolved))]
      case Remove(name, _) => agents - {name}
  }

  function Apply(s: EgressState, r: Request): EgressState {
    var agents := AgentsAfter(s.agents, r);
    if Regenerates(s, r) && r.written then EgressState(agents, agents) else s.(agents := agents)
  }

  function ApplyAll(s: EgressState, rs: seq<Request>): EgressState {
    if rs == [] then s else Apply(ApplyAll(s, rs[..|rs| - 1]), rs[|rs| - 1])
  }

  const INITIAL: EgressState := EgressState(map[], map[])

  // ---------------------------------------------------------------- the rules file

  ghost predicate Enumerates<T>(order: seq<T>, elements: set<T>) {
    NoDuplicates(order) && SetOf(order) == elements
  }

  /** `rules` lists the map's entries, each once, in some order. */
  ghost predicate Lists(rules: seq<TsiAgentRule>, agents: AgentMap) {
    && (forall i, j :: 0 <= i < j < |rules| ==> rules[i].agentName != rules[j].agentName)
    && (forall i :: 0 <= i < |rules| ==> ListsEntry(rules[i], agents))
    && (forall n :: n in agents ==> exists i :: 0 <= i < |rules| && rules[i].agentName == n)
  }

  ghost predicate ListsEntry(rule: TsiAgentRule, agents: AgentMap) {
    rule.agentName in agents && Enumerates(rule.allowedIps, agents[rule.agentName].ips)
  }

  /** The text is the ruleset of the map, in one of the orders its iteration may take. */
  ghost predicate IsRulesetOf(text: string, agents: AgentMap) {
    exists rules :: Lists(rules, agents) && text == Text(Layout(rules))
  }

  class EgressDaemon {
    var agents: AgentMap
    var rulesFile: string
    ghost var applied: AgentMap
    // Every request answered so far that named an agent.
    ghost var log: seq<Request>

    ghost function State(): EgressState
      reads this
    {
      EgressState(agents, applied)
    }

    /** The rules file is the ruleset of the map it was last written from; both stand for the log. */
    ghost predicate Valid()
      reads this
    {
      IsRulesetOf(rulesFile, applied) && State() == ApplyAll(INITIAL, log)
    }

    /** Start-up writes the ruleset of the empty map; the daemon exits when that fails. */
    constructor ()
      ensures Valid() && log == []
    {
      agents, applied, log := map[], map[], [];
      var rules: seq<TsiAgentRule> := [];
      assert Lists(rules, map[]);
      var content := GenerateTsiRuleset(rules);
      rulesFile := content;
    }

    /** The map's entries in the orders the map and the address sets yield them. */
    method ListAgents() returns (rules: seq<TsiAgentRule>)
      ensures Lists(rules, agents)
    {
      var names := Enumerate(agents.Keys);
      rules := [];
      for i := 0 to |names|
        invariant |rules| == i
        invariant forall j :: 0 <= j < i ==> rules[j].agentName == names[j] && ListsEntry(rules[j], agents)
      {
        var ips := Enumerate(agents[names[i]].ips);
        assert SetOf(ips) == agents[names[i]].ips;
        rules := rules + [TsiAgentRule(names[i], ips)];
      }
      forall n | n in agents ensures exists i :: 0 <= i < |rules| && rules[i].agentName == n {
        assert n in names;
        var i :| 0 <= i < |names| && names[i] == n;
        assert rules[i].agentName == n;
      }
    }

    /** regenerate_and_apply: list the map, print it, replace the file; nft itself never fails it. */
    method RegenerateAndApply(written: bool) returns (ok: bool)
      modifies this`rulesFile, this`applied
      ensures ok == written
      ensures written ==> IsRulesetOf(rulesFile, applied) && applied == agents
      ensures !written ==> rulesFile == old(rulesFile) && applied == old(applied)
    {
      hide Layout;
      hide Text;
      var rules := ListAgents();
      var content := GenerateTsiRuleset(rules);
      if written {
        rulesFile := content;
        applied := agents;
      }
      ok := written;
    }

    /**
     * handle_add_agent; `resolved` is what DNS returned for the domains. Of it exactly the IPv4
     * addresses outside every blocked prefix are kept.
     */
    method HandleAddAgent(name: Option<string>, domains: seq<string>, resolved: set<IpAddr>, written: bool)
      returns (response: Response)
      requires Valid()
      modifies this
      ensures Valid()
      ensures response == if name.None? || name.value == "" then BadName else if written then Ok else ApplyFailed
      ensures name.None? ==> log == old(log)
      ensures name.Some? ==> log == old(log) + [Add(name.value, domains, resolved, written)]
      ensures response == BadName ==> agents == old(agents) && rulesFile == old(rulesFile)
      ensures response != BadName ==>
                && name.value in agents && agents - {name.value} == old(agents) - {name.value}
                && agents[name.value].domains == domains
                && forall ip :: ip in agents[name.value].ips <==> ip in resolved && ip.V4? && !InSomeBlockedPrefix(ip)
      ensures response == Ok ==> IsRulesetOf(rulesFile, agents)
      ensures response == ApplyFailed ==> rulesFile == old(rulesFile)
    {
      if name.Some? { LogExtends(log, Add(name.value, domains, resolved, written)); }
      if name.None? || name.value == "" {
        log := if name.Some? then log + [Add(name.value, domains, resolved, written)] else log;
        return BadName;
      }
      var ips := set ip | ip in resolved && !IsBlocked(ip);
      forall ip ensures ip in ips <==> ip in resolved && ip.V4? && !InSomeBlockedPrefix(ip) { OctetTestIsTheTables(ip); }
      agents := agents[name.value := AgentEntry(domains, ips)];
      var ok := RegenerateAndApply(written);
      log := log + [Add(name.value, domains, resolved, written)];
      response := if ok then Ok else ApplyFailed;
    }

    /** handle_remove_agent. */
    method HandleRemoveAgent(name: Option<string>, written: bool) returns (response: Response)
      requires Valid()
      modifies this
      ensures Valid()
      ensures response == if name.None? || name.value == "" then BadName
                          else if name.value !in old(agents) then NotRegistered
                          else if written then Ok else ApplyFailed
      ensures name.None? ==> log == old(log)
      ensures name.Some? ==> log == old(log) + [Remove(name.value, written)]
      ensures agents == if response == BadName then old(agents) else old(agents) - {name.value}
      ensures response == Ok ==> IsRulesetOf(rulesFile, agents)
      ensures response != Ok ==> rulesFile == old(rulesFile)
    {
      if name.Some? { LogExtends(log, Remove(name.value, written)); }
      if name.None? || name.value == "" {
        log := if name.Some? then log + [Remove(name.value, written)] else log;
        return BadName;
      }
      if name.value !in agents {
        assert agents - {name.value} == agents;
        log := log + [Remove(name.value, written)];
        return NotRegistered;
      }
      agents := agents - {name.value};
      var ok := RegenerateAndApply(written);
      log := log + [Remove(name.value, written)];
      response := if ok then Ok else ApplyFailed;
    }

    /** Any run of requests on the daemon's socket. */
    method Serve(requests: seq<Request>)
      requires Valid()
      modifies this
      ensures Valid() && log == old(log) + requests
    {
      hide ApplyAll;
      hide IsRulesetOf;
      hide InSomeBlockedPrefix;
      for i := 0 to |requests|
        invariant Valid() && log == old(log) + requests[..i]
      {
        assert requests[..i + 1] == requests[..i] + [requests[i]];
        match requests[i] {
          case Add(name, domains, resolved, written) =>
            var _ := HandleAddAgent(Some(name), domains, resolved, written);
          case Remove(name, written) =>
            var _ := HandleRemoveAgent(Some(name), written);
        }
      }
      assert requests[..|requests|] == requests;
    }
  }

  lemma LogExtends(log: seq<Request>, r: Request)
    ensures ApplyAll(INITIAL, log + [r]) == Apply(ApplyAll(INITIAL, log), r)
  {
    assert (log + [r])[..|log|] == log;
  }

  // ---------------------------------------------------------------- what holds over all runs

  /** Only unblocked, hence only IPv4, addresses are ever stored. */
  ghost predicate Clean(agents: AgentMap) {
    forall n, ip :: n in agents && ip in agents[n].ips ==> !IsBlocked(ip)
  }

  ghost predicate NamesSafe(agents: AgentMap) {
    forall n :: n in agents ==> SafeName(n)
  }

  lemma ApplyKeepsClean(s: EgressState, r: Request)
    requires Clean(s.agents) && Clean(s.applied)
    ensures Clean(Apply(s, r).agents) && Clean(Apply(s, r).applied)
  {
  }

  lemma {:induction false} RunsAreClean(rs: seq<Request>)
    ensures Clean(ApplyAll(INITIAL, rs).agents) && Clean(ApplyAll(INITIAL, rs).applied)
  {
    if rs != [] {
      RunsAreClean(rs[..|rs| - 1]);
      ApplyKeepsClean(ApplyAll(INITIAL, rs[..|rs| - 1]), rs[|rs| - 1]);
    }
  }

  lemma {:induction false} RunsKeepNamesSafe(rs: seq<Request>)
    requires forall i :: 0 <= i < |rs| ==> SafeName(rs[i].name)
    ensures NamesSafe(ApplyAll(INITIAL, rs).agents) && NamesSafe(ApplyAll(INITIAL, rs).applied)
  {
    if rs != [] { RunsKeepNamesSafe(rs[..|rs| - 1]); }
  }

  /** What every reachable state of the daemon has, as long as its clients send safe names. */
  ghost predicate Sound(s: EgressState) {
    Clean(s.agents) && Clean(s.applied) && NamesSafe(s.agents) && NamesSafe(s.applied)
  }

  /** Request `i` is the last one about agent `n`. */
  ghost predicate IsLatest(rs: seq<Request>, i: nat, n: string)
    requires i < |rs|
  {
    rs[i].name == n && forall j :: i < j < |rs| ==> rs[j].name != n
  }

  /** Request `i` is the last one about its agent and adds it, with `ip` among what was resolved. */
  ghost predicate Grants(rs: seq<Request>, i: nat, ip: IpAddr)
    requires i < |rs|
  {
    rs[i].Add? && rs[i].name != "" && IsLatest(rs, i, rs[i].name) && ip in rs[i].resolved
  }

  /**
   * The map after any run: an agent is in it exactly when the last request about it added it, and
   * it then holds exactly the IPv4 addresses outside every blocked prefix resolved for that request.
   */
  lemma {:induction false} MapAfterRun(rs: seq<Request>, n: string)
    ensures var agents := ApplyAll(INITIAL, rs).agents;
      && (n in agents <==> n != "" && exists i :: 0 <= i < |rs| && IsLatest(rs, i, n) && rs[i].Add?)
      && forall i :: n in agents && 0 <= i < |rs| && IsLatest(rs, i, n) ==>
           && rs[i].Add? && agents[n].domains == rs[i].domains
           && forall ip :: ip in agents[n].ips <==> ip in rs[i].resolved && ip.V4? && !InSomeBlockedPrefix(ip)
  {
    if rs != [] {
      var init, last := rs[..|rs| - 1], rs[|rs| - 1];
      MapAfterRun(init, n);
      if last.name == n {
        assert IsLatest(rs, |rs| - 1, n);
        forall ip { OctetTestIsTheTables(ip); }
      } else {
        forall i | 0 <= i < |init| ensures IsLatest(init, i, n) <==> IsLatest(rs, i, n) {
          LatestOfInit(rs, i, n);
        }
      }
    }
  }

  lemma LatestOfInit(rs: seq<Request>, i: nat, n: string)
    requires rs != [] && rs[|rs| - 1].name != n && i < |rs| - 1
    ensures IsLatest(rs[..|rs| - 1], i, n) <==> IsLatest(rs, i, n)
  {
    var init := rs[..|rs| - 1];
    if IsLatest(init, i, n) {
      forall j | i < j < |rs| ensures rs[j].name != n { if j < |init| { assert init[j].name != n; } }
    }
  }

  /** How many requests had been served when the file was last rewritten. */
  function LatestWrite(s: EgressState, rs: seq<Request>): (k: nat)
    ensures k <= |rs|
  {
    if rs == [] then 0
    else
      var init, last := rs[..|rs| - 1], rs[|rs| - 1];
      if Regenerates(ApplyAll(s, init), last) && last.written then |rs| else LatestWrite(s, init)
  }

  /** The file stands for the agent map as it was at the latest successful regeneration. */
  lemma {:induction false} FileIsFromLatestWrite(rs: seq<Request>)
    ensures ApplyAll(INITIAL, rs).applied == ApplyAll(INITIAL, rs[..LatestWrite(INITIAL, rs)]).agents
  {
    if rs != [] {
      var init := rs[..|rs| - 1];
      FileIsFromLatestWrite(init);
      if Regenerates(ApplyAll(INITIAL, init), rs[|rs| - 1]) && rs[|rs| - 1].written {
        assert rs[..LatestWrite(INITIAL, rs)] == rs;
      } else {
        assert rs[..LatestWrite(INITIAL, rs)] == init[..LatestWrite(INITIAL, init)];
      }
    }
  }

  /** An address some agent of the map holds. */
  ghost predicate Held(agents: AgentMap, ip: IpAddr) {
    exists n :: n in agents && ip in agents[n].ips
  }

  /** Read the file as nft would, and ask every chain at the hook. */
  ghost predicate FilePasses(text: string, hook: string, p: Packet, v6: V6Matcher) {
    match ParseRuleset(text)
    case None => false
    case Some(chains) => forall i :: 0 <= i < |chains| && chains[i].hook == hook ==> Accepts(chains[i], p, v6)
  }

  ghost predicate FileAccepts(text: string, p: Packet, v6: V6Matcher) {
    FilePasses(text, "output", p, v6)
  }

  lemma ListedIsHeld(rules: seq<TsiAgentRule>, agents: AgentMap, ip: IpAddr)
    requires Lists(rules, agents)
    ensures HeldBySomeAgent(rules, ip) <==> Held(agents, ip)
  {
  }

  lemma ListedIsPrintable(rules: seq<TsiAgentRule>, agents: AgentMap)
    requires Lists(rules, agents) && Clean(agents) && NamesSafe(agents)
    ensures AllPrintable(rules)
  {
    forall i | 0 <= i < |rules| ensures Printable(rules[i]) {
      assert ListsEntry(rules[i], agents);
      forall k | 0 <= k < |rules[i].allowedIps| ensures rules[i].allowedIps[k].V4? {
        assert rules[i].allowedIps[k] in SetOf(rules[i].allowedIps);
        assert !IsBlocked(rules[i].allowedIps[k]);
      }
    }
  }

  /**
   * What the rules file means, whatever order it was printed in: a packet passes exactly when it
   * is loopback, established, DNS, or addressed to an address held in the map.
   */
  lemma FileMeaning(text: string, agents: AgentMap, p: Packet, v6: V6Matcher)
    requires IsRulesetOf(text, agents) && Clean(agents) && NamesSafe(agents)
    ensures FileAccepts(text, p, v6) <==> AllowedForAll(p) || Held(agents, p.dst)
    ensures FilePasses(text, "input", p, v6) <==> p.inLoopback || p.established
  {
    hide ParseRuleset;
    hide Layout;
    hide Text;
    hide OutputRules;
    hide AllPrintable;
    hide Accepts;
    var rules :| Lists(rules, agents) && text == Text(Layout(rules));
    ListedIsPrintable(rules, agents);
    PrintableInFull(rules);
    RenderingRoundTrip(rules);
    FirewallMeaning(rules, p, v6);
    InputMeaning(p, v6);
    ListedIsHeld(rules, agents, p.dst);
    var chains := IntendedRuleset(rules);
    assert chains[0].hook == "output" && chains[1].hook == "input";
    if Held(agents, p.dst) {
      var n :| n in agents && p.dst in agents[n].ips;
      assert !IsBlocked(p.dst);
      OctetTestIsTheTables(p.dst);
    }
  }

  lemma PrintableInFull(agents: seq<TsiAgentRule>)
    requires AllPrintable(agents)
    ensures forall i, c :: 0 <= i < |agents| && c in agents[i].agentName ==>
              'a' <= c <= 'z' || 'A' <= c <= 'Z' || '0' <= c <= '9' || c == '-' || c == '_'
    ensures forall i, k :: 0 <= i < |agents| && 0 <= k < |agents[i].allowedIps| ==> agents[i].allowedIps[k].V4?
  {
    forall i | 0 <= i < |agents| ensures Printable(agents[i]) {
    }
  }

  lemma HeldAfterRun(rs: seq<Request>, ip: IpAddr)
    ensures Held(ApplyAll(INITIAL, rs).agents, ip)
       <==> ip.V4? && !InSomeBlockedPrefix(ip) && exists i :: 0 <= i < |rs| && Grants(rs, i, ip)
  {
    var agents := ApplyAll(INITIAL, rs).agents;
    if n :| n in agents && ip in agents[n].ips {
      MapAfterRun(rs, n);
      var i :| 0 <= i < |rs| && IsLatest(rs, i, n) && rs[i].Add?;
      assert Grants(rs, i, ip);
    }
    if i :| 0 <= i < |rs| && Grants(rs, i, ip) {
      MapAfterRun(rs, rs[i].name);
    }
  }

  /**
   * What the rules file lets out after any run of requests with safe names: besides loopback,
   * established traffic and DNS exactly what goes to an IPv4 address outside every blocked prefix
   * that, when the file was last written, some agent had been granted and not lost again. What it
   * lets in does not depend on the run.
   */
  lemma FileAfterRun(rs: seq<Request>, text: string, p: Packet, v6: V6Matcher)
    requires forall i :: 0 <= i < |rs| ==> SafeName(rs[i].name)
    ensures IsRulesetOf(text, ApplyAll(INITIAL, rs).applied) ==>
      && (FilePasses(text, "output", p, v6) <==>
            || p.outLoopback || p.established || ((p.protocol == Tcp || p.protocol == Udp) && p.port == 53)
            || (p.dst.V4? && !InSomeBlockedPrefix(p.dst)
                && var k := LatestWrite(INITIAL, rs);
                   exists i :: 0 <= i < k && Grants(rs[..k], i, p.dst)))
      && (FilePasses(text, "input", p, v6) <==> p.inLoopback || p.established)
  {
    hide FilePasses;
    hide IsRulesetOf;
    hide Grants;
    hide Held;
    var k := LatestWrite(INITIAL, rs);
    if IsRulesetOf(text, ApplyAll(INITIAL, rs).applied) {
      RunsAreClean(rs);
      RunsKeepNamesSafe(rs);
      FileIsFromLatestWrite(rs);
      HeldAfterRun(rs[..k], p.dst);
      FileMeaning(text, ApplyAll(INITIAL, rs).applied, p, v6);
    }
  }

  /**
   * A removal that is written revokes exactly the addresses that no other agent still holds, and
   * grants nothing: `before` is the ruleset of the map as it was, be it on file or not.
   */
  lemma RemovalRevokes(s: EgressState, name: string, before: string, after: string, p: Packet, v6: V6Matcher)
    requires name in s.agents && name != "" && Clean(s.agents) && NamesSafe(s.agents)
    ensures IsRulesetOf(before, s.agents) && IsRulesetOf(after, Apply(s, Remove(name, true)).applied) ==>
      && (FileAccepts(after, p, v6) ==> FileAccepts(before, p, v6))
      && (FileAccepts(before, p, v6) && !FileAccepts(after, p, v6)
          <==> && !AllowedForAll(p)
               && p.dst in s.agents[name].ips
               && forall m :: m in s.agents && m != name ==> p.dst !in s.agents[m].ips)
  {
    hide FileAccepts;
    hide IsRulesetOf;
    var rest := s.agents - {name};
    if IsRulesetOf(before, s.agents) { FileMeaning(before, s.agents, p, v6); }
    if IsRulesetOf(after, rest) { FileMeaning(after, rest, p, v6); }
    assert Held(s.agents, p.dst) <==> Held(rest, p.dst) || p.dst in s.agents[name].ips by {
      if p.dst in s.agents[name].ips { assert Held(s.agents, p.dst); }
      if n :| n in rest && p.dst in rest[n].ips { assert n in s.agents; }
      if n :| n in s.agents && p.dst in s.agents[n].ips { assert n == name || n in rest; }
    }
    if m :| m in s.agents && m != name && p.dst in s.agents[m].ips { assert m in rest; }
  }

  /**
   * Requests about different agents commute on the map, and when both are written on the file too,
   * even if an earlier write had failed.
   */
  lemma DifferentAgentsCommute(s: EgressState, r1: Request, r2: Request)
    requires r1.name != r2.name
    ensures Apply(Apply(s, r1), r2).agents == Apply(Apply(s, r2), r1).agents
    ensures r1.written && r2.written ==> Apply(Apply(s, r1), r2) == Apply(Apply(s, r2), r1)
  {
    AgentsCommute(s.agents, r1, r2);
  }

  lemma AgentsCommute(agents: AgentMap, r1: Request, r2: Request)
    requires r1.name != r2.name
    ensures AgentsAfter(AgentsAfter(agents, r1), r2) == AgentsAfter(AgentsAfter(agents, r2), r1)
  {
  }

  /** Either order leaves a file that gives the same verdict on every packet. */
  lemma CommutingFilesAgree(s: EgressState, r1: Request, r2: Request, file12: string, file21: string,
                            p: Packet, v6: V6Matcher)
    requires r1.name != r2.name && r1.written && r2.written
    requires Sound(s) && SafeName(r1.name) && SafeName(r2.name)
    ensures IsRulesetOf(file12, Apply(Apply(s, r1), r2).applied) && IsRulesetOf(file21, Apply(Apply(s, r2), r1).applied) ==>
              (FileAccepts(file12, p, v6) <==> FileAccepts(file21, p, v6))
  {
    hide FileAccepts;
    hide IsRulesetOf;
    DifferentAgentsCommute(s, r1, r2);
    var end := Apply(Apply(s, r1), r2);
    ApplyKeepsClean(s, r1);
    ApplyKeepsClean(Apply(s, r1), r2);
    if IsRulesetOf(file12, end.applied) && IsRulesetOf(file21, end.applied) {
      FileMeaning(file12, end.applied, p, v6);
      FileMeaning(file21, end.applied, p, v6);
    }
  }
}
