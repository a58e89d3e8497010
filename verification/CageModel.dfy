/**
 * The microVM manager as a step system (pkg/cage/src/main.rs, pkg/cage/src/vm.rs), together with
 * the egress daemon it notifies. A `World` holds both daemons' state and the children of cage; an
 * `Event` is one lifecycle step, its notifications included. Time is in nanoseconds.
 */
module CageModel {
  import opened Collections
  import opened Wrappers
  import Egress
  import opened NetText
  import NftParser

  function Seconds(n: int): int { 1_000_000_000 * n }

  datatype HealthCheck = HealthCheck(intervalSecs: nat, maxFailures: nat)

  datatype Manifest = Manifest(name: string, allow: seq<string>, healthCheck: Option<HealthCheck>)

  datatype HealthState = HealthState(config: HealthCheck, consecutiveFailures: nat, lastCheck: nat)

  datatype RunningVm = RunningVm(agentName: string, pid: nat, health: Option<HealthState>)

  datatype ExitStatus = Exited(code: int) | Signaled(signal: int)

  datatype Signal = SigTerm | SigKill

  datatype Probe = Probe(answered: bool, at: nat)

  /** A notification may get lost; otherwise egress resolves the domains and writes its file, or not. */
  datatype Delivery = Lost | Delivered(resolved: set<IpAddr>, written: bool)

  /** One life of an agent's VM; the program itself keeps none of this. */
  datatype Incarnation = Incarnation(id: nat, manifest: Manifest, startedAt: nat, probes: seq<Probe>, added: Delivery)

  /**
   * `children` maps each unreaped pid to the incarnation it belongs to. `unhealthy` are the agents
   * the running sweep reported and has still to restart. `leftBehind` are the agents whose health
   * restart failed and that have not been started since.
   */
  datatype World = World(
    vms: map<string, RunningVm>,
    manifests: map<string, Manifest>,
    clock: nat,
    children: map<nat, nat>,
    nextId: nat,
    incarnations: map<string, Incarnation>,
    unhealthy: seq<string>,
    egress: Egress.EgressState,
    leftBehind: set<string>)

  datatype Event =
    | Tick(dt: nat)
    | Start(name: string, spawned: Option<nat>, add: Delivery)
    | Stop(name: string, remove: Delivery)
    | Deploy(manifest: Manifest, spawned: Option<nat>, add: Delivery)
    | Exit(pid: nat, status: ExitStatus, found: Option<string>, remove: Delivery, pause: nat,
           spawned: Option<nat>, add: Delivery)
    | Quiet
    | Sweep(answers: map<string, bool>, reported: seq<string>, probed: seq<string>)
    | HealthRestart(name: string, spawned: Option<nat>, add: Delivery)

  // ---------------------------------------------------------------- pieces of the steps

  function NotifyAdd(egress: Egress.EgressState, name: string, domains: seq<string>, d: Delivery): Egress.EgressState {
    match d
    case Lost => egress
    case Delivered(resolved, written) => Egress.Apply(egress, Egress.Add(name, domains, resolved, written))
  }

  function NotifyRemove(egress: Egress.EgressState, name: string, d: Delivery): Egress.EgressState {
    match d
    case Lost => egress
    case Delivered(_, written) => Egress.Apply(egress, Egress.Remove(name, written))
  }

  function InitialHealth(m: Manifest, now: nat): Option<HealthState> {
    match m.healthCheck
    case None => None
    case Some(config) => Some(HealthState(config, 0, now))
  }

  /** start_agent once the process exists, followed by the add notification. */
  function AfterStart(w: World, m: Manifest, pid: nat, add: Delivery): World {
    w.(vms := w.vms[m.name := RunningVm(m.name, pid, InitialHealth(m, w.clock))],
       children := w.children[pid := w.nextId],
       nextId := w.nextId + 1,
       incarnations := w.incarnations[m.name := Incarnation(w.nextId, m, w.clock, [], add)],
       egress := NotifyAdd(w.egress, m.name, m.allow, add),
       leftBehind := w.leftBehind - {m.name})
  }

  /** start_agent: refused while the agent is tracked, and it may fail to spawn. */
  function TryStart(w: World, m: Manifest, spawned: Option<nat>, add: Delivery): World {
    if m.name in w.vms || spawned.None? then w else AfterStart(w, m, spawned.value, add)
  }

  /** The VM is forgotten; its process is signalled but stays a child until it is reaped. */
  function Forget(w: World, name: string): World {
    w.(vms := w.vms - {name}, incarnations := w.incarnations - {name})
  }

  function AfterStop(w: World, name: string, remove: Delivery): World {
    if name in w.vms then Forget(w, name).(egress := NotifyRemove(w.egress, name, remove)) else w
  }

  /** handle_start. */
  function AfterHandleStart(w: World, name: string, spawned: Option<nat>, add: Delivery): World {
    if name in w.manifests then TryStart(w, w.manifests[name], spawned, add) else w
  }

  function AfterDeploy(w: World, m: Manifest, spawned: Option<nat>, add: Delivery): World {
    AfterHandleStart(w.(manifests := w.manifests[m.name := m]), m.name, spawned, add)
  }

  /** should_restart, for a process that exited by itself. */
  predicate IsCrash(status: ExitStatus) {
    status.Exited? && status.code != 0
  }

  /** One reaped child: forget its VM, deregister it, and after a crash pause and start it again. */
  function AfterExit(w: World, pid: nat, status: ExitStatus, found: Option<string>,
                     remove: Delivery, pause: nat, spawned: Option<nat>, add: Delivery): World {
    var reaped := w.(children := w.children - {pid});
    match found
    case None => reaped
    case Some(name) =>
      var gone := Forget(reaped, name).(egress := NotifyRemove(w.egress, name, remove));
      if IsCrash(status) && name in w.manifests
      then AfterHandleStart(gone.(clock := w.clock + pause), name, spawned, add)
      else gone
  }

  // health checks

  predicate DueForProbe(h: HealthState, now: nat) {
    now - h.lastCheck >= Seconds(h.config.intervalSecs)
  }

  function AfterProbe(h: HealthState, now: nat, answered: bool): HealthState {
    if !DueForProbe(h, now) then h
    else HealthState(h.config, if answered then 0 else h.consecutiveFailures + 1, now)
  }

  function ProbedVm(vm: RunningVm, now: nat, answered: bool): RunningVm {
    if vm.health.None? then vm else vm.(health := Some(AfterProbe(vm.health.value, now, answered)))
  }

  function ProbedIncarnation(vm: RunningVm, inc: Incarnation, now: nat, answered: bool): Incarnation {
    if vm.health.Some? && DueForProbe(vm.health.value, now)
    then inc.(probes := inc.probes + [Probe(answered, now)]) else inc
  }

  /** health_check_sweep reports an agent when a due probe fails and reaches the limit. */
  predicate Reports(vm: RunningVm, now: nat, answered: bool) {
    && vm.health.Some?
    && DueForProbe(vm.health.value, now)
    && !answered
    && vm.health.value.consecutiveFailures + 1 >= vm.health.value.config.maxFailures
  }

  function AfterSweep(w: World, answers: map<string, bool>, reported: seq<string>): World
    requires w.vms.Keys <= answers.Keys
  {
    w.(vms := map n | n in w.vms :: ProbedVm(w.vms[n], w.clock, answers[n]),
       incarnations := map n | n in w.incarnations && n in w.vms ::
           ProbedIncarnation(w.vms[n], w.incarnations[n], w.clock, answers[n]),
       unhealthy := reported)
  }

  /** The restart of one reported agent: no deregistration, and on failure none either. */
  function AfterHealthRestart(w: World, name: string, spawned: Option<nat>, add: Delivery): World {
    var stopped := Forget(w, name).(unhealthy := if w.unhealthy == [] then [] else w.unhealthy[1..]);
    var started := AfterHandleStart(stopped, name, spawned, add);
    if name in started.vms then started else started.(leftBehind := w.leftBehind + {name})
  }

  // ---------------------------------------------------------------- the step system

  /** The manifest rule for agent names. */
  predicate ValidManifest(m: Manifest) {
    m.name != "" && NftParser.SafeName(m.name)
  }

  /** A new process gets a pid that is not that of an unreaped child. */
  predicate FreshPid(children: map<nat, nat>, spawned: Option<nat>) {
    spawned.Some? ==> spawned.value !in children
  }

  ghost predicate FoundByPid(w: World, pid: nat, found: Option<string>) {
    match found
    case Some(n) => n in w.vms && w.vms[n].pid == pid
    case None => forall n :: n in w.vms ==> w.vms[n].pid != pid
  }

  /** The agents that were due were probed, each once; the failing ones are reported, each once. */
  ghost predicate MaySweep(w: World, answers: map<string, bool>, reported: seq<string>, probed: seq<string>) {
    && w.vms.Keys <= answers.Keys
    && NoDuplicates(reported) && NoDuplicates(probed)
    && (forall n :: n in reported <==> n in w.vms && n in answers && Reports(w.vms[n], w.clock, answers[n]))
    && forall n :: n in probed <==> n in w.vms && IsDue(w.vms[n], w.clock)
  }

  /** At least the interval has passed since the agent was last probed, or else started. */
  predicate IsDue(vm: RunningVm, now: nat) {
    vm.health.Some? && now - vm.health.value.lastCheck >= 1_000_000_000 * vm.health.value.config.intervalSecs
  }

  ghost predicate Enabled(w: World, e: Event) {
    match e
    case Tick(_) => true
    case Start(_, spawned, _) => w.unhealthy == [] && FreshPid(w.children, spawned)
    case Stop(_, _) => w.unhealthy == []
    case Deploy(m, spawned, _) => w.unhealthy == [] && ValidManifest(m) && FreshPid(w.children, spawned)
    case Exit(pid, _, found, _, pause, spawned, _) =>
      && w.unhealthy == [] && pid in w.children && FoundByPid(w, pid, found)
      && pause >= 2_000_000_000 && FreshPid(w.children - {pid}, spawned)
    case Quiet => w.unhealthy == []
    case Sweep(answers, reported, probed) => w.unhealthy == [] && MaySweep(w, answers, reported, probed)
    case HealthRestart(name, spawned, _) =>
      w.unhealthy != [] && w.unhealthy[0] == name && FreshPid(w.children, spawned)
  }

  ghost function Apply(w: World, e: Event): World
    requires Enabled(w, e)
  {
    match e
    case Tick(dt) => w.(clock := w.clock + dt)
    case Start(name, spawned, add) => AfterHandleStart(w, name, spawned, add)
    case Stop(name, remove) => AfterStop(w, name, remove)
    case Deploy(m, spawned, add) => AfterDeploy(w, m, spawned, add)
    case Exit(pid, status, found, remove, pause, spawned, add) =>
      AfterExit(w, pid, status, found, remove, pause, spawned, add)
    case Quiet => w
    case Sweep(answers, reported, _) => AfterSweep(w, answers, reported)
    case HealthRestart(name, spawned, add) => AfterHealthRestart(w, name, spawned, add)
  }

  ghost predicate Legal(w: World, events: seq<Event>)
    decreases |events|
  {
    events != [] ==> Enabled(w, events[0]) && Legal(Apply(w, events[0]), events[1..])
  }

  ghost function Run(w: World, events: seq<Event>): World
    requires Legal(w, events)
    decreases |events|
  {
    if events == [] then w else Run(Apply(w, events[0]), events[1..])
  }

  ghost predicate Leads(w: World, events: seq<Event>, w': World) {
    Legal(w, events) && Run(w, events) == w'
  }

  lemma LeadsOne(w: World, e: Event)
    requires Enabled(w, e)
    ensures Leads(w, [e], Apply(w, e))
  {
    assert [e][1..] == [];
    assert Legal(Apply(w, e), []);
  }

  lemma {:induction false} LeadsThen(w: World, before: seq<Event>, mid: World, after: seq<Event>, end: World)
    requires Leads(w, before, mid) && Leads(mid, after, end)
    ensures Leads(w, before + after, end)
    decreases |before|
  {
    hide Enabled;
    hide Apply;
    if before == [] {
      assert before + after == after;
    } else {
      assert (before + after)[1..] == before[1..] + after;
      LeadsThen(Apply(w, before[0]), before[1..], mid, after, end);
    }
  }

  // ---------------------------------------------------------------- notifications

  /** What the way to egress guarantees: whether messages arrive, and whether the file gets written. */
  datatype Link = Link(reliable: bool, writable: bool)

  predicate Arrives(d: Delivery, link: Link) {
    link.reliable ==> d.Delivered? && (link.writable ==> d.written)
  }

  /** The notifications that the step sends, and only those, do what the link guarantees. */
  predicate Reaches(w: World, e: Event, link: Link) {
    match e
    case Tick(_) => true
    case Start(name, spawned, add) => name in w.manifests && name !in w.vms && spawned.Some? ==> Arrives(add, link)
    case Stop(name, remove) => name in w.vms ==> Arrives(remove, link)
    case Deploy(m, spawned, add) => m.name !in w.vms && spawned.Some? ==> Arrives(add, link)
    case Exit(_, status, found, remove, _, spawned, add) =>
      found.Some? ==>
        && Arrives(remove, link)
        && (IsCrash(status) && found.value in w.manifests && spawned.Some? ==> Arrives(add, link))
    case Quiet => true
    case Sweep(_, _, _) => true
    case HealthRestart(name, spawned, add) => name in w.manifests && spawned.Some? ==> Arrives(add, link)
  }

  ghost predicate AllReach(w: World, events: seq<Event>, link: Link)
    requires Legal(w, events)
    decreases |events|
  {
    events != [] ==> Reaches(w, events[0], link) && AllReach(Apply(w, events[0]), events[1..], link)
  }

  /** A run over a given link to egress. */
  ghost predicate Performs(w: World, events: seq<Event>, w': World, link: Link) {
    Leads(w, events, w') && AllReach(w, events, link)
  }

  lemma PerformsOne(w: World, e: Event, link: Link)
    requires Enabled(w, e) && Reaches(w, e, link)
    ensures Performs(w, [e], Apply(w, e), link)
  {
    hide Reaches;
    LeadsOne(w, e);
    assert [e][1..] == [];
    assert AllReach(Apply(w, e), [], link);
  }

  lemma {:induction false} PerformsThen(w: World, before: seq<Event>, mid: World, after: seq<Event>, end: World, link: Link)
    requires Performs(w, before, mid, link) && Performs(mid, after, end, link)
    ensures Performs(w, before + after, end, link)
    decreases |before|
  {
    hide Enabled;
    hide Apply;
    hide Reaches;
    LeadsThen(w, before, mid, after, end);
    if before == [] {
      assert before + after == after;
    } else {
      assert (before + after)[1..] == before[1..] + after;
      PerformsThen(Apply(w, before[0]), before[1..], mid, after, end, link);
    }
  }

  // ---------------------------------------------------------------- what is asked of the host

  /** A system call or a message, with its answer; reads of the clock are not among them. */
  datatype Call =
    | Spawned(manifest: Manifest, result: Option<nat>)
    | Waited(exit: Option<(nat, ExitStatus)>)
    | Killed(pid: nat, signal: Signal)
    | Connected(name: string, answered: bool)
    | Added(name: string, domains: seq<string>, delivery: Delivery)
    | Removed(name: string, delivery: Delivery)

  function StartCalls(w: World, name: string, spawned: Option<nat>, add: Delivery): seq<Call> {
    if name !in w.manifests || name in w.vms then []
    else
      [Spawned(w.manifests[name], spawned)]
      + (if spawned.Some? then [Added(name, w.manifests[name].allow, add)] else [])
  }

  function StopCalls(w: World, name: string): seq<Call> {
    if name in w.vms then [Killed(w.vms[name].pid, SigTerm)] else []
  }

  function ProbeCalls(probed: seq<string>, answers: map<string, bool>): seq<Call> {
    if probed == [] then []
    else
      var last := probed[|probed| - 1];
      ProbeCalls(probed[..|probed| - 1], answers) + [Connected(last, last in answers && answers[last])]
  }

  /** The calls a step makes, in order. */
  function CallsOf(w: World, e: Event): seq<Call> {
    match e
    case Tick(_) => []
    case Start(name, spawned, add) => StartCalls(w, name, spawned, add)
    case Stop(name, remove) => StopCalls(w, name) + (if name in w.vms then [Removed(name, remove)] else [])
    case Deploy(m, spawned, add) => StartCalls(w.(manifests := w.manifests[m.name := m]), m.name, spawned, add)
    case Exit(pid, status, found, remove, _, spawned, add) =>
      [Waited(Some((pid, status)))]
      + (match found
         case None => []
         case Some(name) =>
           [Removed(name, remove)]
           + (if status.Exited? && status.code != 0 then StartCalls(Forget(w, name), name, spawned, add) else []))
    case Quiet => [Waited(None)]
    case Sweep(answers, _, probed) => ProbeCalls(probed, answers)
    case HealthRestart(name, spawned, add) => StopCalls(w, name) + StartCalls(Forget(w, name), name, spawned, add)
  }

  ghost function Calls(w: World, events: seq<Event>): seq<Call>
    requires Legal(w, events)
    decreases |events|
  {
    if events == [] then [] else CallsOf(w, events[0]) + Calls(Apply(w, events[0]), events[1..])
  }

  /** A run over a given link to egress, and the calls made before and after it. */
  ghost predicate Ran(w: World, before: seq<Call>, events: seq<Event>, w': World, after: seq<Call>, link: Link) {
    Performs(w, events, w', link) && after == before + Calls(w, events)
  }

  lemma RanOne(w: World, calls: seq<Call>, e: Event, link: Link)
    requires Enabled(w, e) && Reaches(w, e, link)
    ensures Ran(w, calls, [e], Apply(w, e), calls + CallsOf(w, e), link)
    ensures CallsOf(w, e) == [] ==> Ran(w, calls, [e], Apply(w, e), calls, link)
  {
    hide CallsOf;
    PerformsOne(w, e, link);
    assert calls + [] == calls;
    assert [e][1..] == [];
    assert Calls(Apply(w, e), []) == [];
  }

  lemma {:induction false} CallsThen(w: World, before: seq<Event>, mid: World, after: seq<Event>)
    requires Leads(w, before, mid) && Legal(mid, after)
    ensures Legal(w, before + after) && Calls(w, before + after) == Calls(w, before) + Calls(mid, after)
    decreases |before|
  {
    hide Enabled;
    hide Apply;
    hide CallsOf;
    LeadsThen(w, before, mid, after, Run(mid, after));
    if before == [] {
      assert before + after == after;
    } else {
      assert (before + after)[1..] == before[1..] + after;
      CallsThen(Apply(w, before[0]), before[1..], mid, after);
    }
  }

  lemma RanThen(w: World, c0: seq<Call>, before: seq<Event>, mid: World, c1: seq<Call>,
                after: seq<Event>, end: World, c2: seq<Call>, link: Link)
    requires Ran(w, c0, before, mid, c1, link) && Ran(mid, c1, after, end, c2, link)
    ensures Ran(w, c0, before + after, end, c2, link)
  {
    hide Legal;
    hide Run;
    hide Calls;
    hide AllReach;
    PerformsThen(w, before, mid, after, end, link);
    CallsThen(w, before, mid, after);
  }

  // ---------------------------------------------------------------- where runs begin

  /** load_manifests files every manifest under its own name. */
  ghost predicate ManifestsFiled(manifests: map<string, Manifest>) {
    forall n :: n in manifests ==> manifests[n].name == n && ValidManifest(manifests[n])
  }

  /** Both daemons have come up and no VM has been started. */
  ghost predicate Initial(w: World) {
    && w.vms == map[] && w.incarnations == map[] && w.children == map[]
    && ManifestsFiled(w.manifests)
    && w.unhealthy == [] && w.leftBehind == {}
    && w.egress == Egress.INITIAL
  }
}
