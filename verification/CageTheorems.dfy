/** What holds in every run of cage and egress together. */
module CageTheorems {
  import opened CageModel
  import opened Collections
  import opened Wrappers
  import Egress
  import opened Blocklist
  import opened Firewall
  import opened NetText

  // ---------------------------------------------------------------- the invariants

  /** Every tracked VM is filed under its own name, for a known manifest. */
  ghost predicate Filed(w: World) {
    && ManifestsFiled(w.manifests)
    && w.incarnations.Keys == w.vms.Keys
    && w.vms.Keys <= w.manifests.Keys
    && forall n :: n in w.vms ==> w.vms[n].agentName == n
  }

  /** A tracked pid is an unreaped child that belongs to the agent's current incarnation. */
  ghost predicate Owned(w: World) {
    && (forall n :: n in w.vms && n in w.incarnations ==> OwnsPid(w, n))
    && (forall n, m :: n in w.incarnations && m in w.incarnations && n != m ==>
          w.incarnations[n].id != w.incarnations[m].id)
    && (forall n :: n in w.incarnations ==> w.incarnations[n].id < w.nextId)
    && (forall p :: p in w.children ==> w.children[p] < w.nextId)
  }

  ghost predicate OwnsPid(w: World, n: string)
    requires n in w.vms && n in w.incarnations
  {
    w.vms[n].pid in w.children && w.children[w.vms[n].pid] == w.incarnations[n].id
  }

  /** Incarnations keep their pids apart: no two children belong to the same one. */
  ghost predicate OneProcessEach(w: World) {
    forall p, q :: p in w.children && q in w.children && w.children[p] == w.children[q] ==> p == q
  }

  ghost predicate SafetyInv(w: World) {
    Filed(w) && Owned(w) && OneProcessEach(w)
  }

  // ---------------------------------------------------------------- pieces keep them

  lemma StartKeepsSafety(w: World, m: Manifest, pid: nat, add: Delivery)
    requires SafetyInv(w) && m.name !in w.vms && pid !in w.children
    requires m.name in w.manifests && w.manifests[m.name] == m
    ensures SafetyInv(AfterStart(w, m, pid, add))
  {
    hide NotifyAdd;
    hide InitialHealth;
    hide ManifestsFiled;
    assert Filed(AfterStart(w, m, pid, add)) && OneProcessEach(AfterStart(w, m, pid, add)) by {
      hide OwnsPid;
    }
    StartKeepsOwned(w, m, pid, add);
  }

  lemma StartKeepsOwned(w: World, m: Manifest, pid: nat, add: Delivery)
    requires w.incarnations.Keys == w.vms.Keys && Owned(w) && m.name !in w.vms && pid !in w.children
    ensures Owned(AfterStart(w, m, pid, add))
  {
    hide NotifyAdd;
    hide InitialHealth;
    var w' := AfterStart(w, m, pid, add);
    forall n | n in w'.vms && n in w'.incarnations ensures OwnsPid(w', n) {
      if n != m.name { assert OwnsPid(w, n); }
    }
  }

  lemma ForgetKeepsSafety(w: World, name: string)
    requires SafetyInv(w)
    ensures SafetyInv(Forget(w, name))
  {
  }

  /** Fields the safety invariant does not look at. */
  lemma SafetyIgnores(w: World, w': World)
    requires SafetyInv(w)
    requires w'.vms == w.vms && w'.manifests == w.manifests && w'.children == w.children
    requires w'.nextId == w.nextId && w'.incarnations == w.incarnations
    ensures SafetyInv(w')
  {
  }

  lemma HandleStartKeepsSafety(w: World, name: string, spawned: Option<nat>, add: Delivery)
    requires SafetyInv(w) && FreshPid(w.children, spawned)
    ensures SafetyInv(AfterHandleStart(w, name, spawned, add))
  {
    if name in w.manifests && name !in w.vms && spawned.Some? {
      StartKeepsSafety(w, w.manifests[name], spawned.value, add);
    }
  }

  lemma DeployKeepsSafety(w: World, m: Manifest, spawned: Option<nat>, add: Delivery)
    requires SafetyInv(w) && ValidManifest(m) && FreshPid(w.children, spawned)
    ensures SafetyInv(AfterDeploy(w, m, spawned, add))
  {
    var deployed := w.(manifests := w.manifests[m.name := m]);
    forall n | n in deployed.vms && n in deployed.incarnations ensures OwnsPid(deployed, n) {
      assert OwnsPid(w, n);
    }
    HandleStartKeepsSafety(deployed, m.name, spawned, add);
  }

  /**
   * Each reaped exit removes the VM of the incarnation that exited, if that is still the current
   * one, and no VM otherwise: a late exit of a stopped incarnation never removes a newer VM.
   */
  lemma ExitRemovesOnlyItsOwn(w: World, pid: nat, found: Option<string>)
    requires SafetyInv(w) && pid in w.children && FoundByPid(w, pid, found)
    ensures forall n :: n in w.incarnations ==>
              (found == Some(n) <==> w.incarnations[n].id == w.children[pid])
  {
  }

  /** Reaping and, for the VM found, forgetting: the others stay, this one is gone for now. */
  lemma ExitForgets(w: World, pid: nat, found: Option<string>, n: string)
    requires SafetyInv(w) && pid in w.children && FoundByPid(w, pid, found) && n in w.vms
    ensures var reaped := w.(children := w.children - {pid});
            var w' := if found.Some? then Forget(reaped, found.value) else reaped;
            if w.incarnations[n].id != w.children[pid] then n in w'.vms && w'.vms[n] == w.vms[n]
            else found == Some(n) && n !in w'.vms
  {
    ExitRemovesOnlyItsOwn(w, pid, found);
  }

  /**
   * What a reaped exit does: VMs of other incarnations stay as they are, and the one that exited
   * runs again exactly when it returned non-zero by itself and a new process could be spawned. In
   * particular a VM killed by a signal is not restarted.
   */
  lemma ExitOutcome(w: World, e: Event, n: string)
    requires SafetyInv(w) && Enabled(w, e) && e.Exit? && n in w.vms
    ensures var w' := Apply(w, e);
            if w.incarnations[n].id != w.children[e.pid] then n in w'.vms && w'.vms[n] == w.vms[n]
            else (n in w'.vms <==> e.status.Exited? && e.status.code != 0 && e.spawned.Some?)
  {
    hide NotifyAdd;
    hide NotifyRemove;
    hide InitialHealth;
    ExitForgets(w, e.pid, e.found, n);
    hide Owned;
    hide OneProcessEach;
    hide FoundByPid;
  }

  lemma ReapKeepsSafety(w: World, pid: nat, found: Option<string>)
    requires SafetyInv(w) && pid in w.children && FoundByPid(w, pid, found)
    ensures var reaped := w.(children := w.children - {pid});
            SafetyInv(if found.Some? then Forget(reaped, found.value) else reaped)
  {
    ExitRemovesOnlyItsOwn(w, pid, found);
    var reaped := w.(children := w.children - {pid});
    var w' := if found.Some? then Forget(reaped, found.value) else reaped;
    forall n | n in w'.vms && n in w'.incarnations ensures OwnsPid(w', n) {
      assert OwnsPid(w, n);
    }
  }

  lemma ExitKeepsSafety(w: World, pid: nat, status: ExitStatus, found: Option<string>,
                        remove: Delivery, pause: nat, spawned: Option<nat>, add: Delivery)
    requires SafetyInv(w) && pid in w.children && FoundByPid(w, pid, found)
    requires FreshPid(w.children - {pid}, spawned)
    ensures SafetyInv(AfterExit(w, pid, status, found, remove, pause, spawned, add))
  {
    hide SafetyInv;
    hide NotifyRemove;
    ReapKeepsSafety(w, pid, found);
    if found.Some? {
      var name := found.value;
      var forgotten := Forget(w.(children := w.children - {pid}), name);
      var gone := forgotten.(egress := NotifyRemove(w.egress, name, remove));
      var later := gone.(clock := w.clock + pause);
      SafetyIgnores(forgotten, gone);
      SafetyIgnores(forgotten, later);
      HandleStartKeepsSafety(later, name, spawned, add);
    }
  }

  /** What the sweep leaves alone. */
  lemma SweepKeepsIdentity(w: World, answers: map<string, bool>, reported: seq<string>, n: string)
    requires Filed(w) && w.vms.Keys <= answers.Keys && n in w.vms
    ensures var w' := AfterSweep(w, answers, reported);
      && n in w'.vms && n in w'.incarnations
      && w'.vms[n].agentName == w.vms[n].agentName && w'.vms[n].pid == w.vms[n].pid
      && w'.incarnations[n].id == w.incarnations[n].id
      && w'.incarnations[n].manifest == w.incarnations[n].manifest
  {
  }

  lemma SweepKeepsSafety(w: World, answers: map<string, bool>, reported: seq<string>)
    requires SafetyInv(w) && w.vms.Keys <= answers.Keys
    ensures SafetyInv(AfterSweep(w, answers, reported))
  {
    hide ProbedVm;
    hide ProbedIncarnation;
    var w' := AfterSweep(w, answers, reported);
    forall n | n in w.vms ensures w'.vms[n].agentName == n && w'.incarnations[n].id == w.incarnations[n].id {
      SweepKeepsIdentity(w, answers, reported, n);
    }
    forall n | n in w.vms ensures w'.vms[n].pid == w.vms[n].pid {
      SweepKeepsIdentity(w, answers, reported, n);
    }
    forall n | n in w'.vms && n in w'.incarnations ensures OwnsPid(w', n) {
      assert OwnsPid(w, n);
    }
  }

  lemma HealthRestartKeepsSafety(w: World, name: string, spawned: Option<nat>, add: Delivery)
    requires SafetyInv(w) && FreshPid(w.children, spawned)
    ensures SafetyInv(AfterHealthRestart(w, name, spawned, add))
  {
    hide SafetyInv;
    hide AfterHandleStart;
    var stopped := Forget(w, name).(unhealthy := if w.unhealthy == [] then [] else w.unhealthy[1..]);
    ForgetKeepsSafety(w, name);
    SafetyIgnores(Forget(w, name), stopped);
    HandleStartKeepsSafety(stopped, name, spawned, add);
    var started := AfterHandleStart(stopped, name, spawned, add);
    SafetyIgnores(started, started.(leftBehind := w.leftBehind + {name}));
  }

  lemma StopKeepsSafety(w: World, name: string, remove: Delivery)
    requires SafetyInv(w)
    ensures SafetyInv(AfterStop(w, name, remove))
  {
  }

  lemma StepKeepsSafety(w: World, e: Event)
    requires SafetyInv(w) && Enabled(w, e)
    ensures SafetyInv(Apply(w, e))
  {
    hide SafetyInv;
    match e
    case Tick(dt) => SafetyIgnores(w, w.(clock := w.clock + dt));
    case Start(name, spawned, add) => HandleStartKeepsSafety(w, name, spawned, add);
    case Stop(name, remove) => StopKeepsSafety(w, name, remove);
    case Deploy(m, spawned, add) => DeployKeepsSafety(w, m, spawned, add);
    case Exit(pid, status, found, remove, pause, spawned, add) =>
      ExitKeepsSafety(w, pid, status, found, remove, pause, spawned, add);
    case Quiet =>
    case Sweep(answers, reported, _) => SweepKeepsSafety(w, answers, reported);
    case HealthRestart(name, spawned, add) => HealthRestartKeepsSafety(w, name, spawned, add);
  }

  lemma {:induction false} RunKeepsSafety(w: World, events: seq<Event>)
    requires SafetyInv(w) && Legal(w, events)
    ensures SafetyInv(Run(w, events))
    decreases |events|
  {
    hide SafetyInv;
    hide Enabled;
    hide Apply;
    if events != [] {
      StepKeepsSafety(w, events[0]);
      RunKeepsSafety(Apply(w, events[0]), events[1..]);
    }
  }

  /** In every run tracked pids are distinct unreaped children, and names are known and own. */
  lemma IncarnationSafety(start: World, events: seq<Event>)
    requires Initial(start) && Legal(start, events)
    ensures var w := Run(start, events);
      && (forall n :: n in w.vms ==> n in w.manifests && w.vms[n].agentName == n && w.vms[n].pid in w.children)
      && (forall n, m :: n in w.vms && m in w.vms && w.vms[n].pid == w.vms[m].pid ==> n == m)
  {
    RunKeepsSafety(start, events);
    var w := Run(start, events);
    forall n | n in w.vms ensures w.vms[n].pid in w.children { assert OwnsPid(w, n); }
    forall n, m | n in w.vms && m in w.vms && w.vms[n].pid == w.vms[m].pid ensures n == m {
      assert OwnsPid(w, n) && OwnsPid(w, m);
    }
  }

  // ---------------------------------------------------------------- agents waiting for a restart

  /** The agents a sweep reported are running, each once, until they are restarted. */
  ghost predicate Pending(w: World) {
    NoDuplicates(w.unhealthy) && forall n :: n in w.unhealthy ==> n in w.vms
  }

  /** Restarting the first reported agent leaves the others tracked. */
  lemma TailIsPending(w: World)
    requires Pending(w) && w.unhealthy != []
    ensures w.unhealthy[0] in w.vms && w.unhealthy[0] !in w.unhealthy[1..] && NoDuplicates(w.unhealthy[1..])
    ensures forall n :: n in w.unhealthy[1..] ==> n in w.vms
  {
  }

  lemma StepKeepsPending(w: World, e: Event)
    requires Pending(w) && Enabled(w, e)
    ensures Pending(Apply(w, e))
  {
    hide NotifyAdd;
    hide NotifyRemove;
    hide InitialHealth;
    hide ProbedVm;
    hide ProbedIncarnation;
    hide FoundByPid;
    hide ValidManifest;
    if e.HealthRestart? { TailIsPending(w); }
  }

  // ---------------------------------------------------------------- egress follows the running VMs

  /** Messages arrive; the file may or may not get written. */
  const DELIVERING: Link := Link(true, false)

  /** Messages arrive and the file gets written. */
  const WRITING: Link := Link(true, true)

  /**
   * Registered under exactly the allow list of the manifest the current VM was started from, with
   * exactly those of the addresses resolved for it that are IPv4 and in no blocked prefix.
   */
  ghost predicate RegisteredUnder(w: World, n: string) {
    n in w.egress.agents && n in w.incarnations && IsEntryOf(w.egress.agents[n], w.incarnations[n])
  }

  ghost predicate IsEntryOf(entry: Egress.AgentEntry, inc: Incarnation) {
    && entry.domains == inc.manifest.allow
    && inc.added.Delivered?
    && forall ip :: ip in entry.ips <==> ip in inc.added.resolved && ip.V4? && !InSomeBlockedPrefix(ip)
  }

  lemma FreshEntry(m: Manifest, id: nat, clock: nat, add: Delivery)
    requires add.Delivered?
    ensures IsEntryOf(Egress.AgentEntry(m.allow, Egress.Filtered(add.resolved)), Incarnation(id, m, clock, [], add))
  {
    forall ip ensures ip in Egress.Filtered(add.resolved) <==> ip in add.resolved && ip.V4? && !InSomeBlockedPrefix(ip) {
      OctetTestIsTheTables(ip);
    }
  }

  ghost predicate Registration(w: World) {
    && w.egress.agents.Keys == w.vms.Keys + w.leftBehind
    && w.leftBehind !! w.vms.Keys
    && forall n :: n in w.vms ==> RegisteredUnder(w, n)
  }

  /** A start registers its agent, whether or not an old entry was still there. */
  lemma StartRegisters(w: World, m: Manifest, pid: nat, add: Delivery)
    requires m.name != "" && add.Delivered?
    requires w.egress.agents.Keys + {m.name} == w.vms.Keys + w.leftBehind + {m.name}
    requires w.leftBehind !! w.vms.Keys
    requires forall n :: n in w.vms ==> RegisteredUnder(w, n)
    ensures Registration(AfterStart(w, m, pid, add))
  {
    hide InitialHealth;
    hide Egress.Filtered;
    FreshEntry(m, w.nextId, w.clock, add);
    hide IsEntryOf;
    var w' := AfterStart(w, m, pid, add);
    assert w'.egress.agents.Keys == w.egress.agents.Keys + {m.name};
    assert w'.vms.Keys == w.vms.Keys + {m.name};
    forall n | n in w'.vms ensures RegisteredUnder(w', n) {
      if n != m.name { assert RegisteredUnder(w, n); }
    }
  }

  lemma HandleStartRegisters(w: World, name: string, spawned: Option<nat>, add: Delivery)
    requires ManifestsFiled(w.manifests) && Registration(w)
    requires name in w.manifests && name !in w.vms && spawned.Some? ==> add.Delivered?
    ensures Registration(AfterHandleStart(w, name, spawned, add))
  {
    hide AfterStart;
    if name in w.manifests && name !in w.vms && spawned.Some? {
      StartRegisters(w, w.manifests[name], spawned.value, add);
    }
  }

  /** Forgetting a VM and deregistering it. */
  lemma RemoveDeregisters(w: World, name: string, remove: Delivery)
    requires Registration(w) && name in w.vms && name != "" && remove.Delivered?
    ensures Registration(Forget(w, name).(egress := NotifyRemove(w.egress, name, remove)))
  {
  }

  /** Fields the registration does not look at. */
  lemma RegistrationIgnores(w: World, w': World)
    requires Registration(w)
    requires w'.vms.Keys == w.vms.Keys && w'.egress == w.egress && w'.leftBehind == w.leftBehind
    requires w'.incarnations.Keys >= w.incarnations.Keys
    requires forall n :: n in w.incarnations ==>
               && w'.incarnations[n].manifest == w.incarnations[n].manifest
               && w'.incarnations[n].added == w.incarnations[n].added
    ensures Registration(w')
  {
  }

  lemma HealthRestartRegisters(w: World, name: string, spawned: Option<nat>, add: Delivery)
    requires Filed(w) && Registration(w) && name in w.vms && (spawned.Some? ==> add.Delivered?)
    ensures Registration(AfterHealthRestart(w, name, spawned, add))
    ensures AfterHealthRestart(w, name, spawned, add).leftBehind
         == if spawned.Some? then w.leftBehind else w.leftBehind + {name}
  {
    hide IsEntryOf;
    hide NotifyAdd;
    hide InitialHealth;
    var m := w.manifests[name];
    assert m.name == name && m.name != "";
    hide ManifestsFiled;
    hide RegisteredUnder;
    var stopped := Forget(w, name).(unhealthy := if w.unhealthy == [] then [] else w.unhealthy[1..]);
    StoppedStaysRegistered(w, name, stopped.unhealthy);
    if spawned.Some? {
      StartRegisters(stopped, m, spawned.value, add);
    } else {
      assert AfterHealthRestart(w, name, spawned, add) == stopped.(leftBehind := w.leftBehind + {name});
    }
  }

  /** Between the stop and the start the agent is registered though no longer tracked. */
  lemma StoppedStaysRegistered(w: World, name: string, unhealthy: seq<string>)
    requires Registration(w) && name in w.vms
    ensures var stopped := Forget(w, name).(unhealthy := unhealthy);
      && stopped.vms.Keys == w.vms.Keys - {name}
      && (forall n :: n in stopped.vms ==> RegisteredUnder(stopped, n))
      && Registration(stopped.(leftBehind := w.leftBehind + {name}))
  {
    forall n | n in w.vms && n != name
      ensures RegisteredUnder(Forget(w, name).(unhealthy := unhealthy), n)
      ensures RegisteredUnder(Forget(w, name).(unhealthy := unhealthy, leftBehind := w.leftBehind + {name}), n)
    {
      assert RegisteredUnder(w, n);
    }
    assert RegisteredUnder(w, name);
  }

  lemma ExitRegisters(w: World, pid: nat, status: ExitStatus, found: Option<string>,
                      remove: Delivery, pause: nat, spawned: Option<nat>, add: Delivery)
    requires Filed(w) && Registration(w) && FoundByPid(w, pid, found)
    requires Reaches(w, Exit(pid, status, found, remove, pause, spawned, add), DELIVERING)
    ensures Registration(AfterExit(w, pid, status, found, remove, pause, spawned, add))
  {
    hide IsEntryOf;
    hide NotifyRemove;
    hide Registration;
    var reaped := w.(children := w.children - {pid});
    RegistrationIgnores(w, reaped);
    if found.Some? {
      var name := found.value;
      assert w.manifests[name].name != "";
      RemoveDeregisters(reaped, name, remove);
      var gone := Forget(reaped, name).(egress := NotifyRemove(w.egress, name, remove));
      var later := gone.(clock := w.clock + pause);
      RegistrationIgnores(gone, later);
      if IsCrash(status) { HandleStartRegisters(later, name, spawned, add); }
    }
  }

  lemma SweepRegisters(w: World, answers: map<string, bool>, reported: seq<string>)
    requires Filed(w) && Registration(w) && w.vms.Keys <= answers.Keys
    ensures Registration(AfterSweep(w, answers, reported))
  {
    hide Registration;
    hide ProbedVm;
    var w' := AfterSweep(w, answers, reported);
    assert w'.incarnations.Keys == w.incarnations.Keys;
    RegistrationIgnores(w, w');
  }

  lemma DeployRegisters(w: World, m: Manifest, spawned: Option<nat>, add: Delivery)
    requires Filed(w) && Registration(w) && ValidManifest(m)
    requires m.name !in w.vms && spawned.Some? ==> add.Delivered?
    ensures Registration(AfterDeploy(w, m, spawned, add))
  {
    hide Registration;
    var deployed := w.(manifests := w.manifests[m.name := m]);
    RegistrationIgnores(w, deployed);
    HandleStartRegisters(deployed, m.name, spawned, add);
  }

  lemma StopRegisters(w: World, name: string, remove: Delivery)
    requires Filed(w) && Registration(w) && (name in w.vms ==> remove.Delivered?)
    ensures Registration(AfterStop(w, name, remove))
  {
    hide Registration;
    hide NotifyRemove;
    if name in w.vms {
      assert w.manifests[name].name != "";
      RemoveDeregisters(w, name, remove);
    }
  }

  lemma StepRegisters(w: World, e: Event)
    requires Filed(w) && Pending(w) && Registration(w) && Enabled(w, e) && Reaches(w, e, DELIVERING)
    ensures Registration(Apply(w, e))
  {
    assert ManifestsFiled(w.manifests);
    hide Filed;
    hide Registration;
    hide NoDuplicates;
    match e
    case Tick(dt) => RegistrationIgnores(w, w.(clock := w.clock + dt));
    case Start(name, spawned, add) =>
      HandleStartRegisters(w, name, spawned, add);
    case Stop(name, remove) => StopRegisters(w, name, remove);
    case Deploy(m, spawned, add) => DeployRegisters(w, m, spawned, add);
    case Exit(pid, status, found, remove, pause, spawned, add) =>
      ExitRegisters(w, pid, status, found, remove, pause, spawned, add);
    case Quiet =>
    case Sweep(answers, reported, _) => SweepRegisters(w, answers, reported);
    case HealthRestart(name, spawned, add) =>
      assert w.unhealthy[0] in w.unhealthy;
      HealthRestartRegisters(w, name, spawned, add);
  }

  lemma {:induction false} RunRegisters(w: World, events: seq<Event>)
    requires SafetyInv(w) && Pending(w) && Registration(w)
    requires Legal(w, events) && AllReach(w, events, DELIVERING)
    ensures Pending(Run(w, events)) && Registration(Run(w, events))
    decreases |events|
  {
    hide Owned;
    hide OneProcessEach;
    hide Filed;
    hide Pending;
    hide Registration;
    hide Enabled;
    hide Apply;
    hide Reaches;
    if events != [] {
      var w' := Apply(w, events[0]);
      StepKeepsSafety(w, events[0]);
      StepKeepsPending(w, events[0]);
      StepRegisters(w, events[0]);
      RunRegisters(w', events[1..]);
    }
  }

  /** A health restart whose VM could not be spawned. */
  predicate RestartFails(e: Event) {
    e.HealthRestart? && e.spawned.None?
  }

  lemma LeftBehindGrows(w: World, e: Event)
    requires Filed(w) && Pending(w) && Registration(w) && Enabled(w, e)
    requires Reaches(w, e, DELIVERING) && w.leftBehind == {}
    ensures Apply(w, e).leftBehind == {} <==> !RestartFails(e)
  {
    assert w.vms.Keys <= w.manifests.Keys;
    hide Filed;
    hide Registration;
    hide NotifyAdd;
    hide NotifyRemove;
    hide InitialHealth;
    hide NoDuplicates;
    if e.HealthRestart? {
      assert w.unhealthy[0] in w.unhealthy;
      HealthRestartRegisters(w, e.name, e.spawned, e.add);
    }
  }

  /** Nothing is registered that is not running, now and after every step to come. */
  ghost predicate ExactThroughout(w: World, events: seq<Event>)
    requires Legal(w, events)
    decreases |events|
  {
    && w.egress.agents.Keys == w.vms.Keys
    && (events != [] ==> ExactThroughout(Apply(w, events[0]), events[1..]))
  }

  lemma ExactMeansNoneLeftBehind(w: World)
    requires Registration(w)
    ensures w.egress.agents.Keys == w.vms.Keys <==> w.leftBehind == {}
  {
  }

  lemma {:induction false} ExactFrom(w: World, events: seq<Event>)
    requires SafetyInv(w) && Pending(w) && Registration(w) && w.leftBehind == {}
    requires Legal(w, events) && AllReach(w, events, DELIVERING)
    ensures ExactThroughout(w, events) <==> forall i :: 0 <= i < |events| ==> !RestartFails(events[i])
    decreases |events|
  {
    hide Owned;
    hide OneProcessEach;
    hide Filed;
    hide Pending;
    hide Registration;
    hide Enabled;
    hide Apply;
    hide Reaches;
    hide RestartFails;
    ExactMeansNoneLeftBehind(w);
    if events != [] {
      var w', rest := Apply(w, events[0]), events[1..];
      StepKeepsSafety(w, events[0]);
      StepKeepsPending(w, events[0]);
      StepRegisters(w, events[0]);
      LeftBehindGrows(w, events[0]);
      ExactMeansNoneLeftBehind(w');
      if RestartFails(events[0]) {
        assert !ExactThroughout(w', rest);
      } else {
        ExactFrom(w', rest);
        forall i | 0 <= i < |events|
          ensures RestartFails(events[i]) <==> if i == 0 then false else RestartFails(rest[i - 1])
        {
        }
        assert forall i :: 0 <= i < |rest| ==> rest[i] == events[i + 1];
      }
    }
  }

  lemma InitialIsSound(start: World)
    requires Initial(start)
    ensures SafetyInv(start) && Pending(start) && Registration(start) && Egress.Sound(start.egress)
  {
  }

  /**
   * With every notification delivered: a running agent is registered, under the allow list its
   * VM was started with, and what else is registered is what failed health restarts left behind.
   */
  lemma EgressFollowsRunning(start: World, events: seq<Event>)
    requires Initial(start) && Legal(start, events) && AllReach(start, events, DELIVERING)
    ensures var w := Run(start, events);
      && (forall n :: n in w.vms ==> RegisteredUnder(w, n))
      && w.egress.agents.Keys == w.vms.Keys + w.leftBehind
      && w.leftBehind !! w.vms.Keys
  {
    InitialIsSound(start);
    RunRegisters(start, events);
  }

  /** Registered agents are running throughout a run exactly when no health restart in it fails. */
  lemma RegisteredMeansRunning(start: World, events: seq<Event>)
    requires Initial(start) && Legal(start, events) && AllReach(start, events, DELIVERING)
    ensures ExactThroughout(start, events) <==> forall i :: 0 <= i < |events| ==> !RestartFails(events[i])
  {
    InitialIsSound(start);
    ExactFrom(start, events);
  }

  /** A world with one known agent, and a run that starts it, finds it unhealthy and cannot restart it. */
  function LoneStart(m: Manifest): World {
    World(map[], map[m.name := m], 0, map[], 0, map[], [], Egress.INITIAL, {})
  }

  function FailingRun(m: Manifest, gap: nat): seq<Event> {
    [Start(m.name, Some(1), Delivered({}, true))] + [Tick(gap)]
    + [Sweep(map[m.name := false], [m.name], [m.name])] + [HealthRestart(m.name, None, Lost)]
  }

  /**
   * A health restart can fail, whoever the agent, as long as one failed probe suffices to report
   * it; egress, which hears of everything it is sent, then still has it registered.
   */
  lemma RestartMayFail(m: Manifest)
    requires ValidManifest(m) && m.healthCheck.Some? && m.healthCheck.value.maxFailures <= 1
    ensures var start, events := LoneStart(m), FailingRun(m, Seconds(m.healthCheck.value.intervalSecs));
      && Initial(start) && Legal(start, events) && AllReach(start, events, WRITING)
      && m.name !in Run(start, events).vms && m.name in Run(start, events).egress.agents
      && Run(start, events).leftBehind == {m.name}
  {
    var gap: nat := Seconds(m.healthCheck.value.intervalSecs);
    var w0 := LoneStart(m);
    var e1, e2, e3, e4 := Start(m.name, Some(1), Delivered({}, true)), Tick(gap),
                          Sweep(map[m.name := false], [m.name], [m.name]), HealthRestart(m.name, None, Lost);
    var w1 := Apply(w0, e1);
    var w2 := w1.(clock := gap);
    assert w1.vms == map[m.name := RunningVm(m.name, 1, Some(HealthState(m.healthCheck.value, 0, 0)))];
    assert w1.egress.agents.Keys == {m.name};
    assert Reports(w2.vms[m.name], w2.clock, false);
    var w3 := Apply(w2, e3);
    var w4 := Apply(w3, e4);
    hide Legal;
    hide Run;
    hide AllReach;
    PerformsOne(w0, e1, WRITING);
    PerformsOne(w1, e2, WRITING);
    PerformsOne(w2, e3, WRITING);
    PerformsOne(w3, e4, WRITING);
    PerformsThen(w0, [e1], w1, [e2], w2, WRITING);
    PerformsThen(w0, [e1] + [e2], w2, [e3], w3, WRITING);
    PerformsThen(w0, [e1] + [e2] + [e3], w3, [e4], w4, WRITING);
  }

  // ---------------------------------------------------------------- down to the rules file

  lemma RemoveKeepsSound(egress: Egress.EgressState, name: string, remove: Delivery)
    requires Egress.Sound(egress)
    ensures Egress.Sound(NotifyRemove(egress, name, remove))
  {
  }

  lemma HandleStartKeepsSound(w: World, name: string, spawned: Option<nat>, add: Delivery)
    requires ManifestsFiled(w.manifests) && Egress.Sound(w.egress)
    ensures Egress.Sound(AfterHandleStart(w, name, spawned, add).egress)
  {
  }

  lemma StepKeepsSound(w: World, e: Event)
    requires ManifestsFiled(w.manifests) && Egress.Sound(w.egress) && Enabled(w, e)
    ensures Egress.Sound(Apply(w, e).egress)
  {
    hide NotifyRemove;
    hide AfterHandleStart;
    hide Egress.Sound;
    match e
    case Tick(_) =>
    case Start(name, spawned, add) => HandleStartKeepsSound(w, name, spawned, add);
    case Stop(name, remove) => RemoveKeepsSound(w.egress, name, remove);
    case Deploy(m, spawned, add) =>
      HandleStartKeepsSound(w.(manifests := w.manifests[m.name := m]), m.name, spawned, add);
    case Exit(pid, status, found, remove, pause, spawned, add) =>
      if found.Some? {
        var name := found.value;
        var gone := Forget(w.(children := w.children - {pid}), name).(egress := NotifyRemove(w.egress, name, remove));
        RemoveKeepsSound(w.egress, name, remove);
        HandleStartKeepsSound(gone.(clock := w.clock + pause), name, spawned, add);
      }
    case Quiet =>
    case Sweep(_, _, _) =>
    case HealthRestart(name, spawned, add) =>
      var stopped := Forget(w, name).(unhealthy := if w.unhealthy == [] then [] else w.unhealthy[1..]);
      HandleStartKeepsSound(stopped, name, spawned, add);
  }

  lemma AddInStep(egress: Egress.EgressState, m: Manifest, add: Delivery)
    requires egress.applied == egress.agents && add.Delivered? && add.written
    ensures NotifyAdd(egress, m.name, m.allow, add).applied == NotifyAdd(egress, m.name, m.allow, add).agents
  {
  }

  lemma RemoveInStep(egress: Egress.EgressState, name: string, remove: Delivery)
    requires egress.applied == egress.agents && remove.Delivered? && remove.written
    ensures NotifyRemove(egress, name, remove).applied == NotifyRemove(egress, name, remove).agents
  {
  }

  lemma StartInStep(w: World, name: string, spawned: Option<nat>, add: Delivery)
    requires ManifestsFiled(w.manifests) && w.egress.applied == w.egress.agents
    requires name in w.manifests && name !in w.vms && spawned.Some? ==> add.Delivered? && add.written
    ensures AfterHandleStart(w, name, spawned, add).egress.applied == AfterHandleStart(w, name, spawned, add).egress.agents
  {
    hide NotifyAdd;
    hide InitialHealth;
    if name in w.manifests && name !in w.vms && spawned.Some? { AddInStep(w.egress, w.manifests[name], add); }
  }

  lemma StepInStep(w: World, e: Event)
    requires ManifestsFiled(w.manifests) && Enabled(w, e) && Reaches(w, e, WRITING) && w.egress.applied == w.egress.agents
    ensures Apply(w, e).egress.applied == Apply(w, e).egress.agents
  {
    hide NotifyRemove;
    hide AfterHandleStart;
    match e
    case Tick(_) =>
    case Start(name, spawned, add) => StartInStep(w, name, spawned, add);
    case Stop(name, remove) => if name in w.vms { RemoveInStep(w.egress, name, remove); }
    case Deploy(m, spawned, add) =>
      StartInStep(w.(manifests := w.manifests[m.name := m]), m.name, spawned, add);
    case Exit(pid, status, found, remove, pause, spawned, add) =>
      if found.Some? {
        var name := found.value;
        var gone := Forget(w.(children := w.children - {pid}), name).(egress := NotifyRemove(w.egress, name, remove));
        RemoveInStep(w.egress, name, remove);
        if IsCrash(status) { StartInStep(gone.(clock := w.clock + pause), name, spawned, add); }
      }
    case Quiet =>
    case Sweep(_, _, _) =>
    case HealthRestart(name, spawned, add) =>
      var stopped := Forget(w, name).(unhealthy := if w.unhealthy == [] then [] else w.unhealthy[1..]);
      StartInStep(stopped, name, spawned, add);
  }

  lemma {:induction false} RunInStep(w: World, events: seq<Event>)
    requires SafetyInv(w) && Egress.Sound(w.egress) && w.egress.applied == w.egress.agents
    requires Legal(w, events) && AllReach(w, events, WRITING)
    ensures Egress.Sound(Run(w, events).egress) && Run(w, events).egress.applied == Run(w, events).egress.agents
    decreases |events|
  {
    hide Owned;
    hide OneProcessEach;
    hide Egress.Sound;
    hide Enabled;
    hide Apply;
    hide Reaches;
    if events != [] {
      StepKeepsSafety(w, events[0]);
      StepKeepsSound(w, events[0]);
      StepInStep(w, events[0]);
      RunInStep(Apply(w, events[0]), events[1..]);
    }
  }

  lemma {:induction false} WritingDelivers(w: World, events: seq<Event>)
    requires Legal(w, events) && AllReach(w, events, WRITING)
    ensures AllReach(w, events, DELIVERING)
    decreases |events|
  {
    hide Enabled;
    hide Apply;
    if events != [] { WritingDelivers(Apply(w, events[0]), events[1..]); }
  }

  /**
   * Cage and egress together: with every notification delivered and every write successful, the
   * rules file lets a packet out exactly when anyone may send it or its destination is held by an
   * agent that is running or that a failed health restart left behind.
   */
  lemma OnlyRunningAgentsReachOut(start: World, events: seq<Event>, text: string, p: Packet, v6: V6Matcher)
    requires Initial(start) && Legal(start, events) && AllReach(start, events, WRITING)
    requires Egress.IsRulesetOf(text, Run(start, events).egress.applied)
    ensures var w := Run(start, events);
      Egress.FileAccepts(text, p, v6) <==>
        || AllowedForAll(p)
        || (exists n :: n in w.vms && MayReach(w, n, p.dst))
        || exists n :: n in w.leftBehind && n in w.egress.agents && p.dst in w.egress.agents[n].ips
  {
    hide Legal;
    hide Run;
    hide Egress.FileAccepts;
    hide Egress.IsRulesetOf;
    WritingDelivers(start, events);
    InitialIsSound(start);
    EgressFollowsRunning(start, events);
    RunInStep(start, events);
    var w := Run(start, events);
    Egress.FileMeaning(text, w.egress.agents, p, v6);
    forall n | n in w.vms ensures n in w.egress.agents && (MayReach(w, n, p.dst) <==> p.dst in w.egress.agents[n].ips) {
      assert RegisteredUnder(w, n);
    }
    if Egress.Held(w.egress.agents, p.dst) {
      var n :| n in w.egress.agents && p.dst in w.egress.agents[n].ips;
      assert n in w.vms.Keys + w.leftBehind;
    }
  }

  /** An IPv4 address in no blocked prefix, resolved for the agent when its current VM was started. */
  ghost predicate MayReach(w: World, n: string, ip: IpAddr) {
    && n in w.incarnations && w.incarnations[n].added.Delivered? && ip in w.incarnations[n].added.resolved
    && ip.V4? && !InSomeBlockedPrefix(ip)
  }

  // ---------------------------------------------------------------- health checks

  /** The failed probes at the end of the history. */
  function Streak(probes: seq<Probe>): nat {
    if probes == [] || probes[|probes| - 1].answered then 0 else 1 + Streak(probes[..|probes| - 1])
  }

  /** When the VM was last probed, or else started. */
  function LastProbe(inc: Incarnation): nat {
    if inc.probes == [] then inc.startedAt else inc.probes[|inc.probes| - 1].at
  }

  /** The first probe comes no sooner than `gap` after the start, and so on. */
  ghost predicate Spaced(inc: Incarnation, gap: int) {
    && (inc.probes != [] ==> inc.probes[0].at - inc.startedAt >= gap)
    && forall i, j :: 0 <= i && j == i + 1 && j < |inc.probes| ==> inc.probes[j].at - inc.probes[i].at >= gap
  }

  /** max(1, max_failures): a sweep reports only after a failed probe. */
  function Limit(config: HealthCheck): nat {
    if config.maxFailures == 0 then 1 else config.maxFailures
  }

  /** The counter and the timestamp stand for the probe history; reported means the limit is reached. */
  ghost predicate Refines(health: Option<HealthState>, inc: Incarnation, reported: bool) {
    match health
    case None => inc.manifest.healthCheck == None && inc.probes == [] && !reported
    case Some(h) =>
      && inc.manifest.healthCheck == Some(h.config)
      && h.consecutiveFailures == Streak(inc.probes) <= Limit(h.config)
      && h.lastCheck == LastProbe(inc)
      && Spaced(inc, Seconds(h.config.intervalSecs))
      && (reported <==> Streak(inc.probes) == Limit(h.config))
  }

  ghost predicate HealthInv(w: World) {
    forall n :: n in w.vms && n in w.incarnations ==> Healthy(w, n)
  }

  ghost predicate Healthy(w: World, n: string)
    requires n in w.vms && n in w.incarnations
  {
    Refines(w.vms[n].health, w.incarnations[n], n in w.unhealthy)
  }

  lemma ProbeRefines(vm: RunningVm, inc: Incarnation, now: nat, answered: bool)
    requires Refines(vm.health, inc, false)
    ensures Refines(ProbedVm(vm, now, answered).health, ProbedIncarnation(vm, inc, now, answered),
                    Reports(vm, now, answered))
  {
    hide Seconds;
    if vm.health.Some? && DueForProbe(vm.health.value, now) {
      var probed := ProbedIncarnation(vm, inc, now, answered);
      assert probed.probes[..|inc.probes|] == inc.probes;
      assert Streak(probed.probes) == if answered then 0 else 1 + Streak(inc.probes);
    }
  }

  lemma SweepKeepsHealth(w: World, answers: map<string, bool>, reported: seq<string>, probed: seq<string>)
    requires Filed(w) && HealthInv(w) && w.unhealthy == [] && MaySweep(w, answers, reported, probed)
    ensures HealthInv(AfterSweep(w, answers, reported))
  {
    hide Refines;
    hide ProbedVm;
    hide ProbedIncarnation;
    hide Reports;
    var w' := AfterSweep(w, answers, reported);
    forall n | n in w'.vms && n in w'.incarnations ensures Healthy(w', n) {
      assert Healthy(w, n);
      ProbeRefines(w.vms[n], w.incarnations[n], w.clock, answers[n]);
    }
  }

  lemma HandleStartKeepsHealth(w: World, name: string, spawned: Option<nat>, add: Delivery)
    requires ManifestsFiled(w.manifests) && HealthInv(w) && name !in w.unhealthy
    ensures HealthInv(AfterHandleStart(w, name, spawned, add))
  {
  }

  /** Dropping VMs, and popping a reported agent that is no longer tracked, keeps the invariant. */
  lemma HealthIgnores(w: World, w': World)
    requires HealthInv(w)
    requires forall n :: n in w'.vms && n in w'.incarnations ==>
               && n in w.vms && n in w.incarnations
               && w'.vms[n] == w.vms[n] && w'.incarnations[n] == w.incarnations[n]
               && (n in w'.unhealthy <==> n in w.unhealthy)
    ensures HealthInv(w')
  {
  }

  lemma StepKeepsHealth(w: World, e: Event)
    requires Filed(w) && Pending(w) && HealthInv(w) && Enabled(w, e)
    ensures HealthInv(Apply(w, e))
  {
    hide HealthInv;
    hide AfterHandleStart;
    hide NotifyRemove;
    hide FoundByPid;
    match e
    case Tick(dt) => HealthIgnores(w, w.(clock := w.clock + dt));
    case Start(name, spawned, add) => HandleStartKeepsHealth(w, name, spawned, add);
    case Stop(name, remove) => HealthIgnores(w, AfterStop(w, name, remove));
    case Deploy(m, spawned, add) =>
      var deployed := w.(manifests := w.manifests[m.name := m]);
      HealthIgnores(w, deployed);
      HandleStartKeepsHealth(deployed, m.name, spawned, add);
    case Exit(pid, status, found, remove, pause, spawned, add) => ExitKeepsHealth(w, e);
    case Quiet =>
    case Sweep(answers, reported, probed) => SweepKeepsHealth(w, answers, reported, probed);
    case HealthRestart(name, spawned, add) =>
      TailIsPending(w);
      var stopped := Forget(w, name).(unhealthy := w.unhealthy[1..]);
      forall n | n in stopped.vms ensures n in stopped.unhealthy <==> n in w.unhealthy {
        assert w.unhealthy == [name] + stopped.unhealthy;
      }
      HealthIgnores(w, stopped);
      HandleStartKeepsHealth(stopped, name, spawned, add);
      var started := AfterHandleStart(stopped, name, spawned, add);
      HealthIgnores(started, started.(leftBehind := w.leftBehind + {name}));
  }

  lemma ExitKeepsHealth(w: World, e: Event)
    requires Filed(w) && HealthInv(w) && e.Exit? && w.unhealthy == []
    ensures HealthInv(AfterExit(w, e.pid, e.status, e.found, e.remove, e.pause, e.spawned, e.add))
  {
    hide HealthInv;
    hide AfterHandleStart;
    hide NotifyRemove;
    var reaped := w.(children := w.children - {e.pid});
    HealthIgnores(w, reaped);
    if e.found.Some? {
      var name := e.found.value;
      var gone := Forget(reaped, name).(egress := NotifyRemove(w.egress, name, e.remove));
      var later := gone.(clock := w.clock + e.pause);
      HealthIgnores(w, gone);
      HealthIgnores(w, later);
      HandleStartKeepsHealth(later, name, e.spawned, e.add);
    }
  }

  lemma {:induction false} RunKeepsHealth(w: World, events: seq<Event>)
    requires SafetyInv(w) && Pending(w) && HealthInv(w) && Legal(w, events)
    ensures SafetyInv(Run(w, events)) && Pending(Run(w, events)) && HealthInv(Run(w, events))
    decreases |events|
  {
    hide Owned;
    hide OneProcessEach;
    hide Filed;
    hide Pending;
    hide HealthInv;
    hide Enabled;
    hide Apply;
    if events != [] {
      StepKeepsSafety(w, events[0]);
      StepKeepsPending(w, events[0]);
      StepKeepsHealth(w, events[0]);
      RunKeepsHealth(Apply(w, events[0]), events[1..]);
    }
  }

  /**
   * In every run: an agent stands reported exactly when the failed probes since its VM started or
   * last answered number max(1, max_failures), they never number more, and both the start and each
   * probe precede the next probe by at least the interval.
   */
  lemma UnhealthyExactly(start: World, events: seq<Event>, n: string)
    requires Initial(start) && Legal(start, events)
    requires n in Run(start, events).vms
    ensures var w := Run(start, events);
      && n in w.incarnations
      && match w.incarnations[n].manifest.healthCheck
         case None => n !in w.unhealthy
         case Some(config) =>
           && (n in w.unhealthy <==> Streak(w.incarnations[n].probes) == Limit(config))
           && Streak(w.incarnations[n].probes) <= Limit(config)
           && Spaced(w.incarnations[n], 1_000_000_000 * config.intervalSecs)
  {
    InitialIsSound(start);
    RunKeepsHealth(start, events);
    assert Healthy(Run(start, events), n);
  }

  /** A health restart that succeeds begins a fresh history; the agent is no longer reported. */
  lemma RestartBeginsAfresh(w: World, e: Event)
    requires SafetyInv(w) && Pending(w) && Enabled(w, e) && e.HealthRestart? && e.spawned.Some?
    ensures var w' := Apply(w, e);
      && e.name in w'.vms && e.name in w'.incarnations && e.name !in w'.unhealthy
      && w'.incarnations[e.name].probes == [] && w'.incarnations[e.name].id == w.nextId
      && w'.incarnations[e.name].manifest == w.manifests[e.name]
      && w'.vms[e.name].pid == e.spawned.value
      && (w'.vms[e.name].health.Some? ==> w'.vms[e.name].health.value.consecutiveFailures == 0)
  {
    hide NotifyAdd;
    hide Owned;
    hide OneProcessEach;
    TailIsPending(w);
  }
}
