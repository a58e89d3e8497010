/**
 * The microVM manager as objects updated in place (pkg/cage/src/vm.rs, pkg/cage/src/main.rs). The
 * host's answers are arbitrary. Every method of the daemon performs a run of the step system.
 */
module Cage {
  import opened CageModel
  import opened CageTheorems
  import opened Collections
  import opened Wrappers
  import Egress
  import opened NetText

  /**
   * The environment: clock, unreaped children by incarnation, egress behind its socket, and a
   * record of the calls made. Where `spawns` holds, every VM asked for comes up.
   */
  class Host {
    const link: Link
    const spawns: bool
    var clock: nat
    var children: map<nat, nat>
    var nextId: nat
    var egress: Egress.EgressState
    ghost var calls: seq<Call>

    constructor (link: Link, spawns: bool)
      ensures this.link == link && this.spawns == spawns && children == map[] && egress == Egress.INITIAL
    {
      this.link, this.spawns := link, spawns;
      clock, children, nextId, egress, calls := 0, map[], 0, Egress.INITIAL, [];
    }

    method Now() returns (t: nat)
      modifies this`clock
      ensures clock >= old(clock) && t == clock
    {
      var dt: nat :| 0 <= dt;
      clock := clock + dt;
      t := clock;
    }

    method Sleep(atLeast: nat)
      modifies this`clock
      ensures clock >= old(clock) + atLeast
    {
      var dt: nat :| 0 <= dt;
      clock := clock + atLeast + dt;
    }

    /** validate_rootfs and spawn_vm_process may fail; a new pid is not that of an unreaped child. */
    method SpawnVm(m: Manifest) returns (pid: Option<nat>)
      modifies this`children, this`nextId, this`calls
      ensures calls == old(calls) + [Spawned(m, pid)]
      ensures FreshPid(old(children), pid)
      ensures pid.None? ==> children == old(children) && nextId == old(nextId)
      ensures pid.Some? ==> children == old(children)[pid.value := old(nextId)] && nextId == old(nextId) + 1
      ensures spawns ==> pid.Some?
    {
      ghost var unused := FreshNat(children.Keys);
      var p: nat :| 0 <= p && p !in children;
      var fails: bool := *;
      pid := None;
      if !fails || spawns {
        children := children[p := nextId];
        nextId := nextId + 1;
        pid := Some(p);
      }
      calls := calls + [Spawned(m, pid)];
    }

    /** waitpid(-1, WNOHANG): some exited child, or nothing to report. */
    method WaitAny() returns (exit: Option<(nat, ExitStatus)>)
      modifies this`children, this`calls
      ensures calls == old(calls) + [Waited(exit)]
      ensures exit.None? ==> children == old(children)
      ensures exit.Some? ==> exit.value.0 in old(children) && children == old(children) - {exit.value.0}
    {
      var p: nat :| 0 <= p;
      var nothing: bool := *;
      exit := None;
      if !nothing && p in children {
        var code: int := *;
        exit := Some((p, if code >= 0 then Exited(code) else Signaled(-code)));
        children := children - {p};
      }
      calls := calls + [Waited(exit)];
    }

    /** The child may or may not heed it. */
    method Kill(pid: nat, signal: Signal)
      modifies this`calls
      ensures calls == old(calls) + [Killed(pid, signal)]
    {
      calls := calls + [Killed(pid, signal)];
    }

    /** A TCP connect to the agent's health port, which takes its time. */
    method Connect(name: string) returns (answered: bool)
      modifies this`clock, this`calls
      ensures clock >= old(clock) && calls == old(calls) + [Connected(name, answered)]
    {
      var dt: nat :| 0 <= dt;
      clock := clock + dt;
      answered := *;
      calls := calls + [Connected(name, answered)];
    }

    /** notify_egress_add: what egress resolves is its own affair, and so, by the link, may be the rest. */
    method NotifyEgressAdd(name: string, domains: seq<string>) returns (ghost add: Delivery)
      modifies this`egress, this`calls
      ensures calls == old(calls) + [Added(name, domains, add)]
      ensures egress == NotifyAdd(old(egress), name, domains, add) && Arrives(add, link)
    {
      var lost, unwritten: bool := *, *;
      add := Lost;
      if !lost || link.reliable {
        var resolved: set<IpAddr> := *;
        var written := link.writable || !unwritten;
        egress := Egress.Apply(egress, Egress.Add(name, domains, resolved, written));
        add := Delivered(resolved, written);
      }
      calls := calls + [Added(name, domains, add)];
    }

    method NotifyEgressRemove(name: string) returns (ghost remove: Delivery)
      modifies this`egress, this`calls
      ensures calls == old(calls) + [Removed(name, remove)]
      ensures egress == NotifyRemove(old(egress), name, remove) && Arrives(remove, link)
    {
      var lost, unwritten: bool := *, *;
      remove := Lost;
      if !lost || link.reliable {
        var written := link.writable || !unwritten;
        egress := Egress.Apply(egress, Egress.Remove(name, written));
        remove := Delivered({}, written);
      }
      calls := calls + [Removed(name, remove)];
    }
  }

  datatype VmError = AlreadyRunning(name: string) | NotRunning(name: string) | SpawnFailed(name: string)

  datatype VmExit = VmExit(agentName: string, exitStatus: int)

  class VmManager {
    var vms: map<string, RunningVm>

    constructor ()
      ensures vms == map[]
    {
      vms := map[];
    }

    /** start_agent. */
    method StartAgent(m: Manifest, host: Host) returns (r: Result<nat, VmError>)
      modifies this, host`clock, host`children, host`nextId, host`calls
      ensures host.calls == old(host.calls)
            + (if m.name in old(vms) then [] else [Spawned(m, if r.Success? then Some(r.value) else None)])
      ensures r == Failure(AlreadyRunning(m.name)) <==> m.name in old(vms)
      ensures host.spawns ==> (r.Success? <==> m.name !in old(vms))
      ensures r.Failure? ==> vms == old(vms) && host.children == old(host.children) && host.nextId == old(host.nextId)
      ensures r.Success? ==>
                && r.value !in old(host.children)
                && vms == old(vms)[m.name := RunningVm(m.name, r.value, InitialHealth(m, host.clock))]
                && host.children == old(host.children)[r.value := old(host.nextId)]
                && host.nextId == old(host.nextId) + 1
      ensures host.clock >= old(host.clock)
    {
      if m.name in vms { return Failure(AlreadyRunning(m.name)); }
      var pid := host.SpawnVm(m);
      if pid.None? { return Failure(SpawnFailed(m.name)); }
      var health: Option<HealthState> := None;
      if m.healthCheck.Some? {
        var now := host.Now();
        health := Some(HealthState(m.healthCheck.value, 0, now));
      }
      vms := vms[m.name := RunningVm(m.name, pid.value, health)];
      r := Success(pid.value);
    }

    /** stop_agent: the VM is forgotten at once; its process, signalled, is reaped some time later. */
    method StopAgent(name: string, host: Host) returns (r: Result<(), VmError>)
      modifies this, host`calls
      ensures host.calls == old(host.calls) + (if name in old(vms) then [Killed(old(vms)[name].pid, SigTerm)] else [])
      ensures r == if name in old(vms) then Success(()) else Failure(NotRunning(name))
      ensures vms == old(vms) - {name}
    {
      if name !in vms {
        assert vms - {name} == vms;
        return Failure(NotRunning(name));
      }
      var vm := vms[name];
      vms := vms - {name};
      host.Kill(vm.pid, SigTerm);
      r := Success(());
    }

    /** handle_exit: forget the VM that owns the pid, if any does. */
    method HandleExit(pid: nat, exitStatus: int) returns (exit: Option<VmExit>)
      modifies this
      ensures exit.None? ==> vms == old(vms) && forall n :: n in vms ==> vms[n].pid != pid
      ensures exit.Some? ==>
                && exit.value.exitStatus == exitStatus
                && exit.value.agentName in old(vms) && old(vms)[exit.value.agentName].pid == pid
                && vms == old(vms) - {exit.value.agentName}
    {
      var names := Enumerate(vms.Keys);
      for i := 0 to |names|
        invariant vms == old(vms)
        invariant forall j :: 0 <= j < i ==> names[j] in vms && vms[names[j]].pid != pid
      {
        if vms[names[i]].pid == pid {
          vms := vms - {names[i]};
          return Some(VmExit(names[i], exitStatus));
        }
      }
      exit := None;
    }

    /** The sweep's loop body: connect to the agent if it is due, and count a refusal. */
    method CheckAgent(name: string, now: nat, host: Host) returns (report: bool, ghost answered: bool)
      requires name in vms
      modifies this, host`clock, host`calls
      ensures vms == old(vms)[name := ProbedVm(old(vms)[name], now, answered)]
      ensures report <==> Reports(old(vms)[name], now, answered)
      ensures host.clock >= old(host.clock)
      ensures host.calls == old(host.calls)
            + (if IsDue(old(vms)[name], now) then [Connected(name, answered)] else [])
    {
      report, answered := false, false;
      var vm := vms[name];
      if vm.health.None? { return; }
      var h := vm.health.value;
      if now - h.lastCheck < Seconds(h.config.intervalSecs) { return; }
      h := h.(lastCheck := now);
      var connected := host.Connect(name);
      if connected {
        h := h.(consecutiveFailures := 0);
      } else {
        h := h.(consecutiveFailures := h.consecutiveFailures + 1);
        report := h.consecutiveFailures >= h.config.maxFailures;
      }
      vms := vms[name := vm.(health := Some(h))];
      answered := connected;
    }

    /**
     * health_check_sweep: the clock is read once; each agent that is due is connected to, a refusal
     * is counted, and an agent is reported when the count reaches the limit. `probed` are the
     * agents connected to, in order.
     */
    method HealthCheckSweep(host: Host)
      returns (unhealthy: seq<string>, ghost now: nat, ghost answers: map<string, bool>, ghost probed: seq<string>)
      modifies this, host`clock, host`calls
      ensures old(host.clock) <= now <= host.clock
      ensures answers.Keys == old(vms).Keys
      ensures Swept(old(vms), vms, now, answers, unhealthy, probed)
      ensures host.calls == old(host.calls) + ProbeCalls(probed, answers)
    {
      hide Swept;
      hide ProbedVm;
      hide Reports;
      hide ProbeCalls;
      hide IsDue;
      var sweepTime := host.Now();
      now := sweepTime;
      answers, unhealthy, probed := map[], [], [];
      ghost var before := vms;
      ghost var calls := host.calls;
      assert Swept(before, vms, now, answers, unhealthy, probed) && host.calls == calls + ProbeCalls(probed, answers) by {
        NothingSwept(before, now);
        assert calls + [] == calls;
      }
      var rest := vms.Keys;
      while rest != {}
        invariant now <= host.clock && rest <= before.Keys && answers.Keys == before.Keys - rest
        invariant Swept(before, vms, now, answers, unhealthy, probed)
        invariant host.calls == calls + ProbeCalls(probed, answers)
        decreases |rest|
      {
        var name :| name in rest;
        ghost var prior := vms;
        Untouched(before, prior, now, answers, unhealthy, probed, name);
        var report, answered := CheckAgent(name, sweepTime, host);
        SweepOneMore(before, prior, now, answers, unhealthy, probed, name, answered);
        ProbeOneMore(before, prior, now, answers, unhealthy, probed, name, answered);
        if report { unhealthy := unhealthy + [name]; }
        answers := answers[name := answered];
        if IsDue(before[name], now) { probed := probed + [name]; }
        rest := rest - {name};
      }
    }
  }

  /** The agents in `answers` have been checked: those due were probed, the failing ones reported, each once. */
  ghost predicate Swept(before: map<string, RunningVm>, after: map<string, RunningVm>, now: nat,
                        answers: map<string, bool>, unhealthy: seq<string>, probed: seq<string>) {
    && after.Keys == before.Keys && answers.Keys <= before.Keys
    && (forall n :: n in before ==> after[n] == if n in answers then ProbedVm(before[n], now, answers[n]) else before[n])
    && NoDuplicates(unhealthy) && NoDuplicates(probed)
    && (forall n :: n in unhealthy <==> n in answers && Reports(before[n], now, answers[n]))
    && forall n :: n in probed <==> n in answers && IsDue(before[n], now)
  }

  lemma NothingSwept(before: map<string, RunningVm>, now: nat)
    ensures Swept(before, before, now, map[], [], []) && ProbeCalls([], map[]) == []
  {
  }

  lemma Untouched(before: map<string, RunningVm>, after: map<string, RunningVm>, now: nat,
                  answers: map<string, bool>, unhealthy: seq<string>, probed: seq<string>, name: string)
    requires Swept(before, after, now, answers, unhealthy, probed) && name in before && name !in answers
    ensures after.Keys == before.Keys && after[name] == before[name]
  {
  }

  lemma SweepOneMore(before: map<string, RunningVm>, after: map<string, RunningVm>, now: nat,
                     answers: map<string, bool>, unhealthy: seq<string>, probed: seq<string>, name: string, answered: bool)
    requires Swept(before, after, now, answers, unhealthy, probed) && name in before && name !in answers
    ensures Swept(before, after[name := ProbedVm(before[name], now, answered)], now, answers[name := answered],
                  if Reports(before[name], now, answered) then unhealthy + [name] else unhealthy,
                  if IsDue(before[name], now) then probed + [name] else probed)
  {
    hide ProbedVm;
    hide Reports;
    hide IsDue;
  }

  lemma ProbeOneMore(before: map<string, RunningVm>, after: map<string, RunningVm>, now: nat,
                     answers: map<string, bool>, unhealthy: seq<string>, probed: seq<string>, name: string, answered: bool)
    requires Swept(before, after, now, answers, unhealthy, probed) && name !in answers
    ensures ProbeCalls(probed, answers[name := answered]) == ProbeCalls(probed, answers)
    ensures ProbeCalls(probed + [name], answers[name := answered])
         == ProbeCalls(probed, answers) + [Connected(name, answered)]
  {
    SameProbes(probed, answers, name, answered);
    assert (probed + [name])[..|probed|] == probed;
  }

  lemma {:induction false} SameProbes(probed: seq<string>, answers: map<string, bool>, name: string, answered: bool)
    requires name !in probed
    ensures ProbeCalls(probed, answers[name := answered]) == ProbeCalls(probed, answers)
  {
    if probed != [] { SameProbes(probed[..|probed| - 1], answers, name, answered); }
  }

  datatype StartError = UnknownAgent(name: string) | Vm(error: VmError)

  datatype Command = StartAgent(name: string) | StopAgent(name: string) | DeployBundle(unpacked: Option<Manifest>)

  /** Bundles are unpacked, and manifests read, through the parser that checks agent names. */
  predicate ValidBundle(unpacked: Option<Manifest>) {
    unpacked.Some? ==> ValidManifest(unpacked.value)
  }

  predicate ValidCommand(c: Command) {
    c.DeployBundle? ==> ValidBundle(c.unpacked)
  }

  /**
   * load_manifests: of the files that parse, the one read last under a name is kept. `parsed` is
   * what the parser made of each file, in directory order.
   */
  method LoadManifests(parsed: seq<Option<Manifest>>) returns (manifests: map<string, Manifest>)
    requires forall i :: 0 <= i < |parsed| ==> ValidBundle(parsed[i])
    ensures ManifestsFiled(manifests)
    ensures forall n :: n in manifests <==> exists i :: 0 <= i < |parsed| && Names(parsed[i], n)
    ensures forall i :: 0 <= i < |parsed| && ReadLast(parsed, i) ==>
              parsed[i].value.name in manifests && manifests[parsed[i].value.name] == parsed[i].value
  {
    manifests := map[];
    for k := 0 to |parsed|
      invariant ManifestsFiled(manifests)
      invariant forall n :: n in manifests <==> exists i :: 0 <= i < k && Names(parsed[i], n)
      invariant forall i :: 0 <= i < k && ReadLast(parsed, i) ==>
                  parsed[i].value.name in manifests && manifests[parsed[i].value.name] == parsed[i].value
    {
      if parsed[k].Some? {
        manifests := manifests[parsed[k].value.name := parsed[k].value];
        assert Names(parsed[k], parsed[k].value.name);
      }
    }
  }

  /** No file read later parses to a manifest of the same name. */
  ghost predicate ReadLast(parsed: seq<Option<Manifest>>, i: nat)
    requires i < |parsed|
  {
    parsed[i].Some? && forall j :: i < j < |parsed| ==> !Names(parsed[j], parsed[i].value.name)
  }

  predicate Names(parsed: Option<Manifest>, n: string) {
    parsed.Some? && parsed.value.name == n
  }

  class CageDaemon {
    const host: Host
    const vmMgr: VmManager
    var manifests: map<string, Manifest>
    // What the program does not store: incarnations, and how far a health pass is.
    ghost var incarnations: map<string, Incarnation>
    ghost var unhealthy: seq<string>
    ghost var leftBehind: set<string>

    ghost function View(): World
      reads this, host, vmMgr
    {
      World(vmMgr.vms, manifests, host.clock, host.children, host.nextId, incarnations, unhealthy,
            host.egress, leftBehind)
    }

    /** What has happened since `start`, when the calls so far were `calls`, is the run `events`. */
    ghost predicate Did(start: World, calls: seq<Call>, events: seq<Event>)
      reads this, host, vmMgr
    {
      Ran(start, calls, events, View(), host.calls, host.link)
    }

    constructor (parsed: seq<Option<Manifest>>, host: Host)
      requires forall i :: 0 <= i < |parsed| ==> ValidBundle(parsed[i])
      requires host.children == map[] && host.egress == Egress.INITIAL
      ensures this.host == host && Initial(View()) && fresh(vmMgr)
    {
      this.host := host;
      var loaded := LoadManifests(parsed);
      vmMgr := new VmManager();
      manifests, incarnations, unhealthy, leftBehind := loaded, map[], [], {};
    }

    /** Start the agent with the manifest on file and, once it runs, notify egress. */
    method StartAndNotify(name: string)
      returns (r: Result<nat, StartError>, ghost wait: nat, ghost spawned: Option<nat>, ghost add: Delivery)
      requires ManifestsFiled(manifests)
      modifies this`incarnations, this`leftBehind, vmMgr, host`clock, host`children, host`nextId, host`egress, host`calls
      ensures FreshPid(old(host.children), spawned) && (r.Success? ==> Arrives(add, host.link))
      ensures View() == AfterHandleStart(old(View()).(clock := old(host.clock) + wait), name, spawned, add)
      ensures r.Success? <==> name in manifests && name !in old(vmMgr.vms) && spawned.Some?
      ensures r.Success? ==> Some(r.value) == spawned
      ensures name !in vmMgr.vms ==> leftBehind == old(leftBehind)
      ensures r == Failure(UnknownAgent(name)) <==> name !in manifests
      ensures r == Failure(Vm(AlreadyRunning(name))) <==> name in manifests && name in old(vmMgr.vms)
      ensures host.spawns ==> (r.Success? <==> name in manifests && name !in old(vmMgr.vms))
      ensures host.calls == old(host.calls) + StartCalls(old(View()), name, spawned, add)
      ensures old(vmMgr.vms).Keys <= vmMgr.vms.Keys && host.clock == old(host.clock) + wait
      ensures r.Success? ==> name in vmMgr.vms && vmMgr.vms[name].pid == r.value
    {
      wait, spawned, add := 0, None, Lost;
      if name !in manifests { return Failure(UnknownAgent(name)), wait, spawned, add; }
      var m := manifests[name];
      var started := vmMgr.StartAgent(m, host);
      wait := host.clock - old(host.clock);
      if started.Failure? { return Failure(Vm(started.error)), wait, spawned, add; }
      spawned := Some(started.value);
      leftBehind := leftBehind - {name};
      add := host.NotifyEgressAdd(name, m.allow);
      incarnations := incarnations[name := Incarnation(old(host.nextId), m, host.clock, [], add)];
      r := Success(started.value);
    }

    /** handle_start, and the start of each agent when the daemon comes up. */
    method HandleStart(name: string) returns (r: Result<nat, StartError>, ghost events: seq<Event>)
      requires ManifestsFiled(manifests) && unhealthy == []
      modifies this`incarnations, this`leftBehind, vmMgr, host`clock, host`children, host`nextId, host`egress, host`calls
      ensures Did(old(View()), old(host.calls), events)
      ensures r == Failure(UnknownAgent(name)) <==> name !in manifests
      ensures r == Failure(Vm(AlreadyRunning(name))) <==> name in manifests && name in old(vmMgr.vms)
      ensures r.Success? ==> name in vmMgr.vms && vmMgr.vms[name].pid == r.value
      ensures Duties(events) == [Serve(StartAgent(name))]
      ensures host.spawns ==> (r.Success? <==> name in manifests && name !in old(vmMgr.vms))
      ensures old(vmMgr.vms).Keys <= vmMgr.vms.Keys
    {
      hide Ran;
      hide AfterHandleStart;
      hide Duties;
      hide ExitsIn;
      ghost var before, soFar := View(), host.calls;
      ghost var wait, spawned, add;
      r, wait, spawned, add := StartAndNotify(name);
      Later(before, soFar, wait, Start(name, spawned, add), host.link);
      events := [Tick(wait)] + [Start(name, spawned, add)];
    }

    method HandleStop(name: string) returns (r: Result<(), VmError>, ghost events: seq<Event>)
      requires unhealthy == []
      modifies this`incarnations, vmMgr
      modifies host`clock, host`children, host`nextId, host`egress, host`calls
      ensures Did(old(View()), old(host.calls), events)
      ensures r == if name in old(vmMgr.vms) then Success(()) else Failure(NotRunning(name))
      ensures name !in vmMgr.vms
      ensures Duties(events) == [Serve(StopAgent(name))]
    {
      hide Ran;
      hide Duties;
      hide ExitsIn;
      ghost var before, soFar := View(), host.calls;
      ghost var remove := Lost;
      r := vmMgr.StopAgent(name, host);
      if r.Success? {
        incarnations := incarnations - {name};
        remove := host.NotifyEgressRemove(name);
      }
      assert View() == Apply(before, Stop(name, remove));
      assert host.calls == soFar + CallsOf(before, Stop(name, remove));
      Begin(before, soFar, Stop(name, remove), host.link);
      events := [Stop(name, remove)];
    }

    /** handle_deploy, given what unpacking the bundle came to. */
    method HandleDeploy(unpacked: Option<Manifest>) returns (r: Option<Result<nat, StartError>>, ghost events: seq<Event>)
      requires ManifestsFiled(manifests) && unhealthy == [] && ValidBundle(unpacked)
      modifies this`manifests, this`incarnations, this`leftBehind, vmMgr, host`clock, host`children, host`nextId, host`egress, host`calls
      ensures Did(old(View()), old(host.calls), events) && ManifestsFiled(manifests)
      ensures r.None? <==> unpacked.None?
      ensures manifests == if unpacked.Some? then old(manifests)[unpacked.value.name := unpacked.value]
                           else old(manifests)
      ensures Duties(events) == Asked([DeployBundle(unpacked)])
      ensures host.spawns && unpacked.Some? ==> unpacked.value.name in vmMgr.vms
    {
      hide Ran;
      hide AfterHandleStart;
      hide Duties;
      hide ExitsIn;
      Nothing(View(), host.calls, host.link);
      if unpacked.None? { return None, []; }
      ghost var before, soFar := View(), host.calls;
      var name := unpacked.value.name;
      manifests := manifests[name := unpacked.value];
      ghost var wait, spawned, add;
      var started: Result<nat, StartError>;
      started, wait, spawned, add := StartAndNotify(name);
      Later(before, soFar, wait, Deploy(unpacked.value, spawned, add), host.link);
      r, events := Some(started), [Tick(wait)] + [Deploy(unpacked.value, spawned, add)];
    }

    /** One turn of reap_children: an exit is handled before the next is asked for. */
    method HandleExit(pid: nat, status: ExitStatus, ghost before: World, ghost soFar: seq<Call>) returns (ghost event: Event)
      requires ManifestsFiled(manifests) && unhealthy == []
      requires pid in before.children && View() == before.(children := before.children - {pid})
      requires host.calls == soFar + [Waited(Some((pid, status)))]
      modifies this`incarnations, this`leftBehind, vmMgr, host`clock, host`children, host`nextId, host`egress, host`calls
      ensures event.Exit? && event.pid == pid && event.status == status
      ensures Enabled(before, event) && View() == Apply(before, event) && host.calls == soFar + CallsOf(before, event)
      ensures Reaches(before, event, host.link)
      ensures host.spawns && event.found.Some? && status.Exited? && status.code != 0 && event.found.value in manifests ==>
                event.spawned.Some?
    {
      hide NotifyRemove;
      hide Arrives;
      hide ManifestsFiled;
      hide AfterHandleStart;
      ghost var remove, pause, spawned, add := Lost, Seconds(2), None, Lost;
      var exitStatus := match status case Exited(code) => code case Signaled(signal) => 128 + signal;
      var exit := vmMgr.HandleExit(pid, exitStatus);
      ghost var found := if exit.Some? then Some(exit.value.agentName) else None;
      if exit.Some? {
        var name := exit.value.agentName;
        incarnations := incarnations - {name};
        remove := host.NotifyEgressRemove(name);
        if status.Exited? && exitStatus != 0 && name in manifests {
          host.Sleep(Seconds(2));
          var r;
          ghost var wait;
          r, wait, spawned, add := StartAndNotify(name);
          pause := host.clock - before.clock;
        }
      }
      event := Exit(pid, status, found, remove, pause, spawned, add);
    }

    /** reap_children: until waitpid has none to report, or `most` have been reaped. */
    method ReapChildren(most: nat) returns (ghost events: seq<Event>)
      requires ManifestsFiled(manifests) && unhealthy == []
      modifies this`incarnations, this`leftBehind, vmMgr, host
      ensures Did(old(View()), old(host.calls), events)
      ensures forall e :: e in events ==> e.Exit? || e.Quiet?
      ensures ReapedOut(events, most) && Duties(events) == []
    {
      hide Ran;
      hide Duties;
      hide ExitsIn;
      events := [];
      ghost var start, calls := View(), host.calls;
      Nothing(start, calls, host.link);
      var left := most;
      while left > 0
        invariant Did(start, calls, events) && ManifestsFiled(manifests) && unhealthy == []
        invariant forall e :: e in events ==> e.Exit?
        invariant ExitsIn(events) + left == most && Duties(events) == []
      {
        ghost var before, soFar := View(), host.calls;
        var exit := host.WaitAny();
        if exit.None? {
          Begin(before, soFar, Quiet, host.link);
          Continue(start, calls, events, before, soFar, [Quiet], View(), host.calls, host.link);
          events := events + [Quiet];
          return;
        }
        ghost var event := HandleExit(exit.value.0, exit.value.1, before, soFar);
        Begin(before, soFar, event, host.link);
        Continue(start, calls, events, before, soFar, [event], View(), host.calls, host.link);
        events := events + [event];
        left := left - 1;
      }
    }

    /**
     * The main loop's health pass: sweep at `now`, then stop and start every agent reported. The
     * others have been probed if they were due and are otherwise left alone.
     */
    method HealthPass()
      returns (ghost reported: seq<string>, ghost now: nat, ghost answers: map<string, bool>,
               ghost probed: seq<string>, ghost swept: map<string, RunningVm>, ghost events: seq<Event>)
      requires ManifestsFiled(manifests) && unhealthy == [] && incarnations.Keys == vmMgr.vms.Keys
      modifies this`incarnations, this`leftBehind, this`unhealthy, vmMgr
      modifies host`clock, host`children, host`nextId, host`egress, host`calls
      ensures Did(old(View()), old(host.calls), events) && unhealthy == []
      ensures now >= old(host.clock) && answers.Keys == old(vmMgr.vms).Keys
      ensures Swept(old(vmMgr.vms), swept, now, answers, reported, probed)
      ensures old(host.calls) + ProbeCalls(probed, answers) <= host.calls
      ensures Restarted(swept, old(host.nextId), host.spawns, reported, View())
      ensures Duties(events) == [CheckHealth]
    {
      hide Ran;
      hide Duties;
      hide ExitsIn;
      hide Swept;
      hide Restarted;
      hide AfterHealthRestart;
      ghost var start, calls := View(), host.calls;
      var found;
      found, now, answers, probed, events := Sweep();
      reported, swept := found, vmMgr.vms;
      NoneRestarted(start.nextId, host.spawns, View());
      for i := 0 to |found|
        invariant Did(start, calls, events) && ManifestsFiled(manifests)
        invariant unhealthy == found[i..] && calls + ProbeCalls(probed, answers) <= host.calls
        invariant Restarted(swept, start.nextId, host.spawns, found[..i], View())
        invariant Duties(events) == [CheckHealth]
      {
        ghost var before, soFar := View(), host.calls;
        ghost var wait, spawned, add, more;
        wait, spawned, add, more := RestartUnhealthy(found[i]);
        RestartRenews(before, wait, found[i], spawned, add, swept, start.nextId, host.spawns, found[..i]);
        Continue(start, calls, events, before, soFar, more, View(), host.calls, host.link);
        events := events + more;
        assert found[..i + 1] == found[..i] + [found[i]];
      }
      assert found[..|found|] == found;
    }

    method Sweep()
      returns (reported: seq<string>, ghost now: nat, ghost answers: map<string, bool>, ghost probed: seq<string>,
               ghost events: seq<Event>)
      requires unhealthy == [] && incarnations.Keys == vmMgr.vms.Keys
      modifies this`incarnations, this`unhealthy, vmMgr, host`clock, host`calls
      ensures Did(old(View()), old(host.calls), events) && unhealthy == reported
      ensures now >= old(host.clock) && answers.Keys == old(vmMgr.vms).Keys
      ensures Swept(old(vmMgr.vms), vmMgr.vms, now, answers, reported, probed)
      ensures host.calls == old(host.calls) + ProbeCalls(probed, answers)
      ensures Duties(events) == [CheckHealth]
    {
      hide Swept;
      hide IsDue;
      hide MaySweep;
      hide ProbeCalls;
      hide Ran;
      hide Duties;
      hide ExitsIn;
      hide ProbedVm;
      hide ProbedIncarnation;
      hide Reports;
      ghost var start, calls := View(), host.calls;
      reported, now, answers, probed := vmMgr.HealthCheckSweep(host);
      ghost var ticked := start.(clock := now);
      ghost var swept := AfterSweep(ticked, answers, reported);
      ghost var sweep := Event.Sweep(answers, reported, probed);
      incarnations := swept.incarnations;
      unhealthy := reported;
      SweptIsSweep(ticked, vmMgr.vms, answers, reported, probed);
      Later(start, calls, now - start.clock, sweep, host.link);
      events := [Tick(now - start.clock)] + [sweep];
      Begin(swept, host.calls, Tick(host.clock - now), host.link);
      Continue(start, calls, events, swept, host.calls, [Tick(host.clock - now)], View(), host.calls, host.link);
      events := events + [Tick(host.clock - now)];
    }

    /** Stop the agent without telling egress, then start it again. */
    method RestartUnhealthy(name: string)
      returns (ghost wait: nat, ghost spawned: Option<nat>, ghost add: Delivery, ghost events: seq<Event>)
      requires ManifestsFiled(manifests) && unhealthy != [] && unhealthy[0] == name
      modifies this`incarnations, this`leftBehind, this`unhealthy, vmMgr
      modifies host`clock, host`children, host`nextId, host`egress, host`calls
      ensures Did(old(View()), old(host.calls), events) && unhealthy == old(unhealthy)[1..]
      ensures View() == AfterHealthRestart(old(View()).(clock := old(host.clock) + wait), name, spawned, add)
      ensures Duties(events) == []
      ensures host.spawns && name in manifests ==> spawned.Some?
      ensures old(host.calls) <= host.calls
    {
      hide CallsOf;
      hide StartCalls;
      hide Arrives;
      hide ManifestsFiled;
      hide InitialHealth;
      hide Ran;
      hide Duties;
      hide ExitsIn;
      hide AfterHandleStart;
      ghost var before, soFar := View(), host.calls;
      var _ := vmMgr.StopAgent(name, host);
      incarnations := incarnations - {name};
      unhealthy := unhealthy[1..];
      ghost var stopped := Forget(before, name).(unhealthy := before.unhealthy[1..]);
      assert View() == stopped;
      var r;
      r, wait, spawned, add := StartAndNotify(name);
      ghost var started := View();
      if name !in vmMgr.vms { leftBehind := leftBehind + {name}; }
      assert View() == AfterHealthRestart(before.(clock := before.clock + wait), name, spawned, add);
      RestartCalls(before, wait, stopped, name, spawned, add);
      assert host.calls == soFar + (StopCalls(before, name) + StartCalls(stopped, name, spawned, add));
      Later(before, soFar, wait, HealthRestart(name, spawned, add), host.link);
      events := [Tick(wait)] + [HealthRestart(name, spawned, add)];
    }

    /** handle_command: the requests on one connection, in order. */
    method HandleCommands(commands: seq<Command>) returns (ghost events: seq<Event>)
      requires ManifestsFiled(manifests) && unhealthy == []
      requires forall i :: 0 <= i < |commands| ==> ValidCommand(commands[i])
      modifies this`manifests, this`incarnations, this`leftBehind, vmMgr
      modifies host`clock, host`children, host`nextId, host`egress, host`calls
      ensures Did(old(View()), old(host.calls), events) && ManifestsFiled(manifests)
      ensures Duties(events) == Asked(commands)
    {
      hide Ran;
      hide Duties;
      hide ExitsIn;
      ghost var start, calls := View(), host.calls;
      Nothing(start, calls, host.link);
      events := [];
      for i := 0 to |commands|
        invariant Did(start, calls, events) && ManifestsFiled(manifests) && unhealthy == []
        invariant Duties(events) == Asked(commands[..i])
      {
        assert commands[..i + 1][..i] == commands[..i];
        ghost var before, soFar, more := View(), host.calls, [];
        match commands[i] {
          case StartAgent(name) => var r; r, more := HandleStart(name);
          case StopAgent(name) => var r; r, more := HandleStop(name);
          case DeployBundle(unpacked) => var r; r, more := HandleDeploy(unpacked);
        }
        Continue(start, calls, events, before, soFar, more, View(), host.calls, host.link);
        events := events + more;
      }
      assert commands[..|commands|] == commands;
    }

    /**
     * run_daemon: start every agent that has a rootfs, then one turn of the main loop per element
     * of `connections`. `turns` are what the turns did: reap until no exited child is left or
     * `most` have been reaped, check health, and serve what was asked. Over a reliable link egress
     * has followed the run.
     */
    method RunDaemon(rootfs: set<string>, connections: seq<Option<seq<Command>>>, most: nat)
      returns (ghost started: seq<string>, ghost starts: seq<Event>, ghost turns: seq<seq<Event>>)
      requires Initial(View())
      requires forall i :: 0 <= i < |connections| ==> ValidConnection(connections[i])
      modifies this`manifests, this`incarnations, this`leftBehind, this`unhealthy, vmMgr, host
      ensures Did(old(View()), old(host.calls), starts + Flatten(turns))
      ensures NoDuplicates(started) && forall n :: n in started <==> n in old(manifests) && n in rootfs
      ensures Duties(starts) == Asked(StartCommands(started))
      ensures |turns| == |connections|
      ensures forall i :: 0 <= i < |turns| ==>
                Duties(turns[i]) == TurnDuties(connections[i]) && ReapedOut(turns[i], most)
      ensures SafetyInv(View()) && HealthInv(View()) && unhealthy == []
      ensures host.link.reliable ==> Registration(View())
      ensures host.link.reliable && host.link.writable ==>
                Egress.Sound(host.egress) && host.egress.applied == host.egress.agents
    {
      hide Ran;
      hide Duties;
      hide ExitsIn;
      hide SafetyInv;
      hide HealthInv;
      hide Registration;
      hide Egress.Sound;
      hide TurnDuties;
      hide ReapedOut;
      ghost var start, calls := View(), host.calls;
      started, starts := AutoStart(rootfs);
      turns := [];
      ghost var events := starts;
      assert starts + Flatten([]) == starts;
      for i := 0 to |connections|
        invariant Did(start, calls, events) && ManifestsFiled(manifests) && unhealthy == []
        invariant events == starts + Flatten(turns) && |turns| == i
        invariant forall j :: 0 <= j < i ==>
                    Duties(turns[j]) == TurnDuties(connections[j]) && ReapedOut(turns[j], most)
      {
        ghost var before, soFar := View(), host.calls;
        ghost var more := Turn(start, calls, events, connections[i], most);
        Continue(start, calls, events, before, soFar, more, View(), host.calls, host.link);
        assert (turns + [more])[..i] == turns;
        turns := turns + [more];
        events := events + more;
      }
      InitialKeeps(start, calls, events, View(), host.calls, host.link);
    }

    /** The agents that have a rootfs are started in the order of the manifest map. */
    method AutoStart(rootfs: set<string>) returns (ghost started: seq<string>, ghost events: seq<Event>)
      requires ManifestsFiled(manifests) && unhealthy == []
      modifies this`incarnations, this`leftBehind, vmMgr, host`clock, host`children, host`nextId, host`egress, host`calls
      ensures Did(old(View()), old(host.calls), events)
      ensures NoDuplicates(started) && forall n :: n in started <==> n in manifests && n in rootfs
      ensures Duties(events) == Asked(StartCommands(started))
      ensures host.spawns ==> forall n :: n in started ==> n in vmMgr.vms
    {
      hide Ran;
      hide Duties;
      hide ExitsIn;
      hide AfterHandleStart;
      ghost var start, calls := View(), host.calls;
      Nothing(start, calls, host.link);
      started, events := [], [];
      var names := Enumerate(manifests.Keys);
      for i := 0 to |names|
        invariant Did(start, calls, events) && ManifestsFiled(manifests) && unhealthy == []
        invariant NoDuplicates(started) && forall n :: n in started <==> n in names[..i] && n in rootfs
        invariant Duties(events) == Asked(StartCommands(started))
        invariant host.spawns ==> forall n :: n in started ==> n in vmMgr.vms
      {
        ghost var before, soFar := View(), host.calls;
        assert names[..i + 1] == names[..i] + [names[i]];
        if names[i] in rootfs {
          var r;
          ghost var more;
          r, more := HandleStart(names[i]);
          Continue(start, calls, events, before, soFar, more, View(), host.calls, host.link);
          events := events + more;
          assert StartCommands(started + [names[i]])[..|started|] == StartCommands(started);
          started := started + [names[i]];
        }
      }
    }

    /** One turn of the main loop: reap, check health, then serve a connection or sleep briefly. */
    method Turn(ghost start: World, ghost calls: seq<Call>, ghost past: seq<Event>,
                connection: Option<seq<Command>>, most: nat)
      returns (ghost events: seq<Event>)
      requires Initial(start) && Did(start, calls, past)
      requires unhealthy == [] && ValidConnection(connection)
      modifies this`manifests, this`incarnations, this`leftBehind, this`unhealthy, vmMgr, host
      ensures Did(old(View()), old(host.calls), events) && ManifestsFiled(manifests) && unhealthy == []
      ensures Duties(events) == TurnDuties(connection) && ReapedOut(events, most)
    {
      hide Ran;
      hide Duties;
      hide ExitsIn;
      hide SafetyInv;
      hide HealthInv;
      hide Registration;
      hide Egress.Sound;
      hide Swept;
      hide Restarted;
      ghost var before, soFar := View(), host.calls;
      InitialKeeps(start, calls, past, before, soFar, host.link);
      events := ReapChildren(most);
      ghost var mid, midCalls := View(), host.calls;
      Continue(start, calls, past, before, soFar, events, mid, midCalls, host.link);
      InitialKeeps(start, calls, past + events, mid, midCalls, host.link);
      ghost var reported, now, answers, probed, swept, more;
      reported, now, answers, probed, swept, more := HealthPass();
      Continue(before, soFar, events, mid, midCalls, more, View(), host.calls, host.link);
      events := events + more;
      mid, midCalls := View(), host.calls;
      if connection.Some? {
        more := HandleCommands(connection.value);
      } else {
        host.Sleep(100_000_000);
        more := [Tick(host.clock - mid.clock)];
        Begin(mid, midCalls, more[0], host.link);
      }
      Continue(before, soFar, events, mid, midCalls, more, View(), host.calls, host.link);
      events := events + more;
    }
  }

  predicate ValidConnection(connection: Option<seq<Command>>) {
    connection.Some? ==> forall i :: 0 <= i < |connection.value| ==> ValidCommand(connection.value[i])
  }

  /** The sweep of the objects is the sweep of the step system. */
  lemma SweptIsSweep(w: World, vms: map<string, RunningVm>, answers: map<string, bool>,
                     reported: seq<string>, probed: seq<string>)
    requires Swept(w.vms, vms, w.clock, answers, reported, probed) && answers.Keys == w.vms.Keys
    ensures MaySweep(w, answers, reported, probed) && AfterSweep(w, answers, reported).vms == vms
  {
    hide ProbedVm;
    hide Reports;
    hide IsDue;
  }

  lemma RestartCalls(w: World, wait: nat, stopped: World, name: string, spawned: Option<nat>, add: Delivery)
    requires stopped.manifests == w.manifests && stopped.vms == w.vms - {name}
    ensures CallsOf(w.(clock := w.clock + wait), HealthRestart(name, spawned, add))
         == StopCalls(w, name) + StartCalls(stopped, name, spawned, add)
  {
  }

  /** What became of a reported agent: it runs as an incarnation begun since, or was left behind. */
  ghost predicate Renewed(w: World, n: string, since: nat) {
    if n in w.vms then n in w.incarnations && w.incarnations[n].id >= since else n in w.leftBehind
  }

  /** The agents in `done` have been restarted where that was possible; of `swept` the others are unchanged. */
  ghost predicate Restarted(swept: map<string, RunningVm>, since: nat, spawns: bool, done: seq<string>, w: World) {
    && w.nextId >= since
    && (forall n :: n in done ==> Renewed(w, n, since) && (spawns && n in w.manifests ==> n in w.vms))
    && (forall n :: n in swept && n !in done ==> n in w.vms && w.vms[n] == swept[n])
  }

  lemma NoneRestarted(since: nat, spawns: bool, w: World)
    requires w.nextId >= since
    ensures Restarted(w.vms, since, spawns, [], w)
  {
  }

  lemma RestartRenews(w: World, wait: nat, name: string, spawned: Option<nat>, add: Delivery,
                      swept: map<string, RunningVm>, since: nat, spawns: bool, done: seq<string>)
    requires ManifestsFiled(w.manifests) && Restarted(swept, since, spawns, done, w)
    requires spawns && name in w.manifests ==> spawned.Some?
    ensures Restarted(swept, since, spawns, done + [name],
                      AfterHealthRestart(w.(clock := w.clock + wait), name, spawned, add))
  {
    hide NotifyAdd;
    hide InitialHealth;
    hide ValidManifest;
  }

  // ---------------------------------------------------------------- what a run was asked to do

  /** A request served, or a health check made. */
  datatype Duty = Serve(command: Command) | CheckHealth

  function DutyOf(e: Event): seq<Duty> {
    match e
    case Start(name, _, _) => [Serve(StartAgent(name))]
    case Stop(name, _) => [Serve(StopAgent(name))]
    case Deploy(m, _, _) => [Serve(DeployBundle(Some(m)))]
    case Sweep(_, _, _) => [CheckHealth]
    case _ => []
  }

  function Duties(events: seq<Event>): seq<Duty> {
    if events == [] then [] else DutyOf(events[0]) + Duties(events[1..])
  }

  /** How many exits of children the run has dealt with. */
  function ExitsIn(events: seq<Event>): nat {
    if events == [] then 0 else (if events[0].Exit? then 1 else 0) + ExitsIn(events[1..])
  }

  /** Every command is served, except that a bundle that cannot be unpacked is turned away. */
  function Asked(commands: seq<Command>): seq<Duty> {
    if commands == [] then []
    else
      var last := commands[|commands| - 1];
      Asked(commands[..|commands| - 1]) + (if last == DeployBundle(None) then [] else [Serve(last)])
  }

  function StartCommands(names: seq<string>): seq<Command> {
    seq(|names|, i requires 0 <= i < |names| => StartAgent(names[i]))
  }

  function TurnDuties(connection: Option<seq<Command>>): seq<Duty> {
    [CheckHealth] + (if connection.Some? then Asked(connection.value) else [])
  }

  lemma {:induction false} DutiesConcat(a: seq<Event>, b: seq<Event>)
    ensures Duties(a + b) == Duties(a) + Duties(b)
  {
    if a == [] {
      assert a + b == b;
    } else {
      assert (a + b)[1..] == a[1..] + b;
      DutiesConcat(a[1..], b);
    }
  }

  lemma {:induction false} ExitsConcat(a: seq<Event>, b: seq<Event>)
    ensures ExitsIn(a + b) == ExitsIn(a) + ExitsIn(b)
  {
    if a == [] {
      assert a + b == b;
    } else {
      assert (a + b)[1..] == a[1..] + b;
      ExitsConcat(a[1..], b);
    }
  }

  /** Children have been reaped until waitpid had none to report, or at least `most` of them. */
  predicate ReapedOut(events: seq<Event>, most: nat) {
    Quiet in events || ExitsIn(events) >= most
  }

  function Flatten(turns: seq<seq<Event>>): seq<Event> {
    if turns == [] then [] else Flatten(turns[..|turns| - 1]) + turns[|turns| - 1]
  }

  lemma Nothing(w: World, calls: seq<Call>, link: Link)
    ensures Ran(w, calls, [], w, calls, link) && Duties([]) == [] && ExitsIn([]) == 0
  {
  }

  lemma Begin(w: World, calls: seq<Call>, e: Event, link: Link)
    requires Enabled(w, e) && Reaches(w, e, link)
    ensures Ran(w, calls, [e], Apply(w, e), calls + CallsOf(w, e), link)
    ensures CallsOf(w, e) == [] ==> Ran(w, calls, [e], Apply(w, e), calls, link)
    ensures Duties([e]) == DutyOf(e) && ExitsIn([e]) == if e.Exit? then 1 else 0
  {
    RanOne(w, calls, e, link);
    assert Duties([e][1..]) == [] && ExitsIn([e][1..]) == 0;
  }

  /** A step taken after some time. */
  lemma Later(w: World, calls: seq<Call>, wait: nat, e: Event, link: Link)
    requires Enabled(w.(clock := w.clock + wait), e) && Reaches(w.(clock := w.clock + wait), e, link)
    ensures Ran(w, calls, [Tick(wait)] + [e], Apply(w.(clock := w.clock + wait), e),
                calls + CallsOf(w.(clock := w.clock + wait), e), link)
    ensures Duties([Tick(wait)] + [e]) == DutyOf(e)
  {
    hide Ran;
    var mid := w.(clock := w.clock + wait);
    Begin(w, calls, Tick(wait), link);
    Begin(mid, calls, e, link);
    Continue(w, calls, [Tick(wait)], mid, calls, [e], Apply(mid, e), calls + CallsOf(mid, e), link);
  }

  lemma Continue(w: World, c0: seq<Call>, before: seq<Event>, mid: World, c1: seq<Call>,
                 after: seq<Event>, end: World, c2: seq<Call>, link: Link)
    requires Ran(w, c0, before, mid, c1, link) && Ran(mid, c1, after, end, c2, link)
    ensures Ran(w, c0, before + after, end, c2, link)
    ensures Duties(before + after) == Duties(before) + Duties(after)
    ensures ExitsIn(before + after) == ExitsIn(before) + ExitsIn(after)
  {
    RanThen(w, c0, before, mid, c1, after, end, c2, link);
    ExitsConcat(before, after);
    DutiesConcat(before, after);
  }

  /** What the daemon may rely on after a run from an initial world. */
  lemma InitialKeeps(start: World, before: seq<Call>, events: seq<Event>, w: World, after: seq<Call>, link: Link)
    requires Initial(start) && Ran(start, before, events, w, after, link)
    ensures SafetyInv(w) && HealthInv(w) && ManifestsFiled(w.manifests) && w.incarnations.Keys == w.vms.Keys
    ensures link.reliable ==> Registration(w)
    ensures link.reliable && link.writable ==> Egress.Sound(w.egress) && w.egress.applied == w.egress.agents
  {
    hide Registration;
    hide Egress.Sound;
    InitialIsSound(start);
    RunKeepsHealth(start, events);
    if link == WRITING {
      WritingDelivers(start, events);
      RunInStep(start, events);
    }
    if link.reliable { RunRegisters(start, events); }
  }
}
