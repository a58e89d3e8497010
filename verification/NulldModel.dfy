/**
 * The supervisor of nulld as a step system (cmd/nulld/src/supervisor.rs, cmd/nulld/src/signal.rs).
 *
 * A `World` is the supervisor's own state together with the kernel's view of its children; an
 * `Event` is one thing the supervisor or its environment does. The class in Nulld.dfy refines it.
 * Time is in nanoseconds of a clock that never goes back.
 */
module NulldModel {
  import opened Collections
  import opened Wrappers
  import opened Services

  function Seconds(n: int): int { 1_000_000_000 * n }

  datatype ServiceState = Stopped | Running | Failed | WaitingRestart

  datatype ManagedService = ManagedService(
    def: ServiceDef,
    pid: Option<nat>,
    state: ServiceState,
    restartCount: nat,
    lastStart: Option<nat>,
    nextRestart: Option<nat>)

  datatype ExitReason = Exited(code: int) | Signaled(signal: int)

  /** Whose process a pid is: the supervisor adopts orphans, being PID 1. */
  datatype Owner = ServiceProcess(name: string) | Orphan

  datatype Reaped = Reaped(pid: nat, reason: ExitReason, owner: Owner)

  /** What a service has been through; the program itself keeps none of this. */
  datatype History = History(starts: nat, failingExits: nat, firstStart: nat)

  /**
   * Starting(k): start_all is about to start order[k]. Aborted(k): it gave up there.
   * Stopping(k): stop_all has dealt with the last k services of the order.
   */
  datatype Phase = Starting(k: nat) | Aborted(k: nat) | Serving | Stopping(k: nat)

  datatype World = World(
    services: map<string, ManagedService>,
    order: seq<string>,
    phase: Phase,
    clock: nat,
    children: map<nat, Owner>,
    reaped: seq<Reaped>,
    hist: map<string, History>)

  datatype Event =
    | Tick(dt: nat)
    | Adopt(pid: nat)
    | SpawnOk(name: string, pid: nat)
    | SpawnFailed(name: string)
    | BeginServing
    | Reap(pid: nat, reason: ExitReason)
    | Quiet
    | HandleExit(found: Option<string>, dt: nat)
    | BeginStopping
    | StopNext(gone: bool)

  // ---------------------------------------------------------------- transitions of one service

  function Pow2(n: nat): (p: nat)
    ensures p >= 1
  {
    if n == 0 then 1 else 2 * Pow2(n - 1)
  }

  /** calculate_backoff: 1s, 2s, 4s, 8s, 16s, then 30s for ever. */
  function CalculateBackoff(restartCount: nat): nat {
    var exponent := if restartCount < 30 then restartCount else 30;
    var seconds := Pow2(exponent);
    Seconds(if seconds < 30 then seconds else 30)
  }

  predicate IsFailure(reason: ExitReason) {
    reason.Signaled? || reason.code != 0
  }

  predicate ShouldRestart(policy: RestartPolicy, reason: ExitReason) {
    policy.Always? || (policy.OnFailure? && IsFailure(reason))
  }

  function Unstarted(def: ServiceDef): ManagedService {
    ManagedService(def, None, Stopped, 0, None, None)
  }

  function Started(svc: ManagedService, pid: nat, now: nat): ManagedService {
    svc.(pid := Some(pid), state := Running, lastStart := Some(now))
  }

  /** The stability test reads the clock at `now1`, the schedule at `now2`. */
  function AfterExit(svc: ManagedService, reason: ExitReason, now1: nat, now2: nat): ManagedService {
    if ShouldRestart(svc.def.restart, reason) then
      var count :=
        if svc.lastStart.Some? && now1 - svc.lastStart.value > Seconds(300) then 0 else svc.restartCount;
      svc.(pid := None, state := WaitingRestart,
           nextRestart := Some(now2 + CalculateBackoff(count)), restartCount := count + 1)
    else
      svc.(pid := None, state := Failed)
  }

  // ---------------------------------------------------------------- the step system

  /**
   * What becomes of the service behind a reaped exit, in full: whether it is restarted, after how
   * many nanoseconds, and the count, which a run of more than 300 s resets.
   */
  predicate ExitHandled(svc: ManagedService, reason: ExitReason, now1: nat, now2: nat, svc': ManagedService) {
    var restarts :=
      svc.def.restart == Always || (svc.def.restart == OnFailure && (reason.Signaled? || reason.code != 0));
    var count :=
      if svc.lastStart.Some? && now1 - svc.lastStart.value > 300_000_000_000 then 0 else svc.restartCount;
    var delay :=
      if count == 0 then 1_000_000_000 else if count == 1 then 2_000_000_000 else if count == 2 then 4_000_000_000
      else if count == 3 then 8_000_000_000 else if count == 4 then 16_000_000_000 else 30_000_000_000;
    && svc'.def == svc.def && svc'.lastStart == svc.lastStart && svc'.pid == None
    && if restarts then
         svc'.state == WaitingRestart && svc'.restartCount == count + 1 && svc'.nextRestart == Some(now2 + delay)
       else
         svc'.state == Failed && svc'.restartCount == svc.restartCount && svc'.nextRestart == svc.nextRestart
  }

  lemma AfterExitMeaning(svc: ManagedService, reason: ExitReason, now1: nat, now2: nat)
    ensures ExitHandled(svc, reason, now1, now2, AfterExit(svc, reason, now1, now2))
  {
    BackoffTable(svc.restartCount);
    BackoffTable(0);
  }

  predicate Due(svc: ManagedService, now: nat) {
    svc.state == WaitingRestart && svc.nextRestart.Some? && svc.nextRestart.value <= now
  }

  ghost predicate MayStart(w: World, name: string) {
    && name in w.services
    && w.reaped == []
    && match w.phase
       case Starting(k) => k < |w.order| && w.order[k] == name
       case Serving => Due(w.services[name], w.clock)
       case _ => false
  }

  /** handle_child_exit looks a service up by pid, in the hash map's order. */
  ghost predicate FoundByPid(w: World, pid: nat, found: Option<string>) {
    match found
    case Some(n) => n in w.services && n in w.hist && w.services[n].pid == Some(pid)
    case None => forall n :: n in w.services ==> w.services[n].pid != Some(pid)
  }

  ghost predicate MayHandle(w: World, found: Option<string>) {
    w.phase == Serving && w.reaped != [] && FoundByPid(w, w.reaped[0].pid, found)
  }

  ghost predicate MayStop(w: World) {
    w.phase.Stopping? && w.phase.k < |w.order| && w.order[|w.order| - 1 - w.phase.k] in w.services
  }

  ghost predicate Enabled(w: World, e: Event) {
    match e
    case Tick(_) => true
    case Adopt(pid) => pid !in w.children
    case SpawnOk(name, pid) => MayStart(w, name) && name in w.hist && pid !in w.children
    case SpawnFailed(name) => MayStart(w, name)
    case BeginServing => w.phase == Starting(|w.order|)
    case Reap(pid, _) => w.phase == Serving && pid in w.children
    case Quiet => w.phase == Serving
    case HandleExit(found, _) => MayHandle(w, found)
    case BeginStopping => w.phase == Serving && w.reaped == []
    case StopNext(_) => MayStop(w)
  }

  ghost function AfterSpawn(w: World, name: string, pid: nat): World
    requires name in w.services && name in w.hist
  {
    var h := w.hist[name];
    w.(services := w.services[name := Started(w.services[name], pid, w.clock)],
       children := w.children[pid := ServiceProcess(name)],
       phase := if w.phase.Starting? then Starting(w.phase.k + 1) else w.phase,
       hist := w.hist[name := CountStart(h, w.clock)])
  }

  function CountStart(h: History, now: nat): History {
    h.(starts := h.starts + 1, firstStart := if h.starts == 0 then now else h.firstStart)
  }

  function CountExit(h: History, reason: ExitReason): History {
    if IsFailure(reason) then h.(failingExits := h.failingExits + 1) else h
  }

  ghost function AfterSpawnFailed(w: World, name: string): World
    requires name in w.services
  {
    w.(services := w.services[name := w.services[name].(state := Failed)],
       phase := if w.phase.Starting? then Aborted(w.phase.k) else w.phase)
  }

  ghost function AfterReap(w: World, pid: nat, reason: ExitReason): World
    requires pid in w.children
  {
    w.(children := w.children - {pid}, reaped := w.reaped + [Reaped(pid, reason, w.children[pid])])
  }

  ghost function AfterHandle(w: World, found: Option<string>, dt: nat): World
    requires w.reaped != [] && (found.Some? ==> found.value in w.services && found.value in w.hist)
  {
    var reason := w.reaped[0].reason;
    var w' := w.(reaped := w.reaped[1..], clock := w.clock + dt);
    match found
    case None => w'
    case Some(n) =>
      w'.(services := w.services[n := AfterExit(w.services[n], reason, w.clock, w.clock + dt)],
          hist := w.hist[n := CountExit(w.hist[n], reason)])
  }

  ghost function AfterStop(w: World, gone: bool): World
    requires MayStop(w)
  {
    var n := w.order[|w.order| - 1 - w.phase.k];
    var svc := w.services[n];
    var w' := w.(phase := Stopping(w.phase.k + 1));
    if svc.pid.None? then w'
    else
      w'.(services := w.services[n := svc.(pid := None, state := Stopped)],
          children := if gone then w.children - {svc.pid.value} else w.children)
  }

  ghost function Apply(w: World, e: Event): World
    requires Enabled(w, e)
  {
    match e
    case Tick(dt) => w.(clock := w.clock + dt)
    case Adopt(pid) => w.(children := w.children[pid := Orphan])
    case SpawnOk(name, pid) => AfterSpawn(w, name, pid)
    case SpawnFailed(name) => AfterSpawnFailed(w, name)
    case BeginServing => w.(phase := Serving)
    case Reap(pid, reason) => AfterReap(w, pid, reason)
    case Quiet => w
    case HandleExit(found, dt) => AfterHandle(w, found, dt)
    case BeginStopping => w.(phase := Stopping(0))
    case StopNext(gone) => AfterStop(w, gone)
  }

  ghost predicate Legal(w: World, events: seq<Event>)
    decreases |events|
  {
    events != [] ==> Enabled(w, events[0]) && Legal(Apply(w, events[0]), events[1..])
  }

  ghost function Run(w: World, events: seq<Event>): World
    requires Legal(w, events)
    decreases |events|
  {
    if events == [] then w else Run(Apply(w, events[0]), events[1..])
  }

  /** `events` is a possible run from `w`, and it ends in `w'`. */
  ghost predicate Leads(w: World, events: seq<Event>, w': World) {
    Legal(w, events) && Run(w, events) == w'
  }

  lemma LeadsOne(w: World, e: Event)
    requires Enabled(w, e)
    ensures Leads(w, [e], Apply(w, e))
  {
  }

  lemma {:induction false} LeadsThen(w: World, before: seq<Event>, mid: World, after: seq<Event>, end: World)
    requires Leads(w, before, mid) && Leads(mid, after, end)
    ensures Leads(w, before + after, end)
    decreases |before|
  {
    if before == [] {
      assert before + after == after;
    } else {
      assert (before + after)[1..] == before[1..] + after;
      LeadsThen(Apply(w, before[0]), before[1..], mid, after, end);
    }
  }

  // ---------------------------------------------------------------- what is asked of the kernel

  datatype Signal = SigTerm | SigKill

  /** A system call with its answer; reads of the clock and polls in vain are not among them. */
  datatype Call =
    | Spawned(binary: string, args: seq<string>, result: Option<nat>)
    | Waited(exit: Option<(nat, ExitReason)>)
    | Killed(pid: nat, signal: Signal)
    | Collected(pid: nat)

  /** The calls a step makes. */
  ghost function CallsOf(w: World, e: Event): seq<Call>
    requires Enabled(w, e)
  {
    match e
    case SpawnOk(name, pid) => [Spawned(w.services[name].def.binary, w.services[name].def.args, Some(pid))]
    case SpawnFailed(name) => [Spawned(w.services[name].def.binary, w.services[name].def.args, None)]
    case Reap(pid, reason) => [Waited(Some((pid, reason)))]
    case Quiet => [Waited(None)]
    case StopNext(gone) =>
      (match w.services[w.order[|w.order| - 1 - w.phase.k]].pid
       case None => []
       case Some(pid) => [Killed(pid, SigTerm), if gone then Collected(pid) else Killed(pid, SigKill)])
    case _ => []
  }

  ghost function Calls(w: World, events: seq<Event>): seq<Call>
    requires Legal(w, events)
    decreases |events|
  {
    if events == [] then [] else CallsOf(w, events[0]) + Calls(Apply(w, events[0]), events[1..])
  }

  /** A run, and the calls made before and after it. */
  ghost predicate Ran(w: World, before: seq<Call>, events: seq<Event>, w': World, after: seq<Call>) {
    Leads(w, events, w') && after == before + Calls(w, events)
  }

  lemma RanNowhere(w: World, calls: seq<Call>)
    ensures Ran(w, calls, [], w, calls)
  {
  }

  lemma RanOne(w: World, calls: seq<Call>, e: Event)
    requires Enabled(w, e)
    ensures Ran(w, calls, [e], Apply(w, e), calls + CallsOf(w, e))
    ensures CallsOf(w, e) == [] ==> Ran(w, calls, [e], Apply(w, e), calls)
  {
    assert calls + [] == calls;
    LeadsOne(w, e);
    assert [e][1..] == [];
    assert Calls(Apply(w, e), []) == [];
  }

  lemma {:induction false} CallsThen(w: World, before: seq<Event>, mid: World, after: seq<Event>)
    requires Leads(w, before, mid) && Legal(mid, after)
    ensures Legal(w, before + after) && Calls(w, before + after) == Calls(w, before) + Calls(mid, after)
    decreases |before|
  {
    hide Enabled;
    hide Apply;
    hide CallsOf;
    LeadsThen(w, before, mid, after, Run(mid, after));
    if before == [] {
      assert before + after == after;
    } else {
      assert (before + after)[1..] == before[1..] + after;
      CallsThen(Apply(w, before[0]), before[1..], mid, after);
    }
  }

  lemma RanThen(w: World, c0: seq<Call>, before: seq<Event>, mid: World, c1: seq<Call>,
                after: seq<Event>, end: World, c2: seq<Call>)
    requires Ran(w, c0, before, mid, c1) && Ran(mid, c1, after, end, c2)
    ensures Ran(w, c0, before + after, end, c2)
  {
    hide Legal;
    hide Run;
    hide Calls;
    LeadsThen(w, before, mid, after, end);
    CallsThen(w, before, mid, after);
  }

  // ---------------------------------------------------------------- where runs begin

  /** The order lists exactly the services, without repetition, dependencies first. */
  ghost predicate Ordered(services: map<string, ManagedService>, order: seq<string>) {
    && NoDuplicates(order)
    && (forall n :: n in order <==> n in services)
    && (forall i, d :: 0 <= i < |order| && order[i] in services && d in services[order[i]].def.dependsOn
          ==> d in order[..i])
  }

  /** start_all has resolved an order and nothing has been spawned. */
  ghost predicate Initial(w: World) {
    && Ordered(w.services, w.order)
    && w.phase == Starting(0)
    && w.reaped == []
    && w.hist.Keys == w.services.Keys
    && (forall n :: n in w.services ==> w.services[n] == Unstarted(w.services[n].def))
    && (forall n :: n in w.hist ==> w.hist[n] == History(0, 0, 0))
    && (forall pid :: pid in w.children ==> w.children[pid] == Orphan)
  }

  /** Reachable: some possible run from an initial world ends here. */
  ghost predicate Reachable(w: World) {
    exists start, events :: Initial(start) && Leads(start, events, w)
  }

  // ---------------------------------------------------------------- the restart budget

  /** How far `restartCount` consecutive backoffs fall short of 30 s each. */
  function Slack(restartCount: nat): int {
    if restartCount == 0 then 0
    else Slack(restartCount - 1) + Seconds(30) - CalculateBackoff(restartCount - 1)
  }

  lemma {:induction false} BackoffTable(restartCount: nat)
    ensures restartCount == 0 ==> CalculateBackoff(restartCount) == 1_000_000_000
    ensures restartCount == 1 ==> CalculateBackoff(restartCount) == 2_000_000_000
    ensures restartCount == 2 ==> CalculateBackoff(restartCount) == 4_000_000_000
    ensures restartCount == 3 ==> CalculateBackoff(restartCount) == 8_000_000_000
    ensures restartCount == 4 ==> CalculateBackoff(restartCount) == 16_000_000_000
    ensures restartCount >= 5 ==> CalculateBackoff(restartCount) == 30_000_000_000
  {
    var exponent := if restartCount < 30 then restartCount else 30;
    if exponent >= 5 {
      PowAtLeast32(exponent);
    } else {
      assert Pow2(0) == 1 && Pow2(1) == 2 && Pow2(2) == 4 && Pow2(3) == 8 && Pow2(4) == 16;
    }
  }

  lemma {:induction false} PowAtLeast32(n: nat)
    requires n >= 5
    ensures Pow2(n) >= 32
  {
    if n == 5 {
      assert Pow2(3) == 8;
    } else {
      PowAtLeast32(n - 1);
    }
  }

  /** The backoffs below the cap save 29 + 28 + 26 + 22 + 14 = 119 seconds in all. */
  lemma {:induction false} SlackBounds(restartCount: nat)
    ensures 0 <= Slack(restartCount) <= Seconds(119)
    ensures restartCount >= 5 ==> Slack(restartCount) == Seconds(119)
  {
    if restartCount > 0 {
      SlackBounds(restartCount - 1);
      BackoffTable(restartCount - 1);
      if restartCount <= 5 {
        BackoffTable(0); BackoffTable(1); BackoffTable(2); BackoffTable(3); BackoffTable(4);
        assert Slack(0) == 0;
        assert Slack(1) == Seconds(29);
        assert Slack(2) == Seconds(57);
        assert Slack(3) == Seconds(83);
        assert Slack(4) == Seconds(105);
        assert Slack(5) == Seconds(119);
      }
    }
  }

  // ---------------------------------------------------------------- the invariant, per service

  ghost predicate ServiceInv(svc: ManagedService, h: History, clock: nat) {
    && (svc.pid.Some? <==> svc.state == Running)
    && (h.starts == 0 ==> (svc.state == Stopped || svc.state == Failed) && svc.restartCount == 0)
    && (h.starts > 0 ==> svc.lastStart.Some? && h.firstStart <= svc.lastStart.value <= clock)
    && svc.restartCount <= h.starts
    && (svc.state == Running ==> svc.restartCount < h.starts)
    && BudgetInv(svc, h)
    && PolicyInv(svc, h)
  }

  ghost predicate BudgetInv(svc: ManagedService, h: History) {
    h.starts > 0 && svc.lastStart.Some? ==>
      && Seconds(30 * (h.starts - 1)) <= svc.lastStart.value - h.firstStart + Seconds(119)
      && (svc.state == Running ==>
            Seconds(30 * (h.starts - 1)) <= svc.lastStart.value - h.firstStart + Slack(svc.restartCount))
      && (svc.state == WaitingRestart ==>
            (svc.nextRestart.Some?
             && Seconds(30 * h.starts) <= svc.nextRestart.value - h.firstStart + Slack(svc.restartCount)))
  }

  ghost predicate PolicyInv(svc: ManagedService, h: History) {
    match svc.def.restart
    case Always => true
    case Never => h.starts <= 1 && svc.state != WaitingRestart
    case OnFailure => h.starts <= h.failingExits + 1 && (svc.state == WaitingRestart ==> h.starts <= h.failingExits)
  }

  lemma StartKeepsServiceInv(svc: ManagedService, h: History, clock: nat, pid: nat)
    requires ServiceInv(svc, h, clock)
    requires h.starts == 0 || Due(svc, clock)
    ensures ServiceInv(Started(svc, pid, clock), CountStart(h, clock), clock)
  {
    SlackBounds(svc.restartCount);
  }

  lemma ExitKeepsServiceInv(svc: ManagedService, h: History, reason: ExitReason, clock: nat, dt: nat)
    requires ServiceInv(svc, h, clock) && svc.pid.Some? && h.starts > 0
    ensures ServiceInv(AfterExit(svc, reason, clock, clock + dt), CountExit(h, reason), clock + dt)
  {
  }

  // ---------------------------------------------------------------- the invariant, pids

  function FirstOwner(reaped: seq<Reaped>, pid: nat): Option<Owner> {
    if reaped == [] then None
    else if reaped[0].pid == pid then Some(reaped[0].owner)
    else FirstOwner(reaped[1..], pid)
  }

  lemma {:induction false} FirstOwnerAppend(reaped: seq<Reaped>, r: Reaped, pid: nat)
    ensures FirstOwner(reaped + [r], pid)
         == if FirstOwner(reaped, pid).Some? then FirstOwner(reaped, pid)
            else if r.pid == pid then Some(r.owner) else None
  {
    if reaped != [] {
      assert (reaped + [r])[1..] == reaped[1..] + [r];
      FirstOwnerAppend(reaped[1..], r, pid);
    } else {
      assert (reaped + [r])[1..] == [];
    }
  }

  /** The process a recorded pid stands for: reaped but not handled yet, or still a child. */
  function Location(w: World, pid: nat): Option<Owner> {
    var reaped := FirstOwner(w.reaped, pid);
    if reaped.Some? then reaped
    else if pid in w.children then Some(w.children[pid]) else None
  }

  /** Every recorded pid is the service's own process. */
  ghost predicate PidsOwned(w: World) {
    forall n :: n in w.services && w.services[n].pid.Some? ==>
      Location(w, w.services[n].pid.value) == Some(ServiceProcess(n))
  }

  /** Conversely a service's process, reaped or not, is the one recorded, and it comes first. */
  ghost predicate ProcessRecorded(w: World, owner: Owner, pid: nat) {
    owner.ServiceProcess? ==> owner.name in w.services && w.services[owner.name].pid == Some(pid)
  }

  ghost predicate ProcessesRecorded(w: World) {
    && (forall pid :: pid in w.children ==>
          ProcessRecorded(w, w.children[pid], pid)
          && (w.children[pid].ServiceProcess? ==> FirstOwner(w.reaped, pid).None?))
    && (forall k :: 0 <= k < |w.reaped| ==>
          ProcessRecorded(w, w.reaped[k].owner, w.reaped[k].pid)
          && (w.reaped[k].owner.ServiceProcess? ==> forall j :: 0 <= j < k ==> w.reaped[j].pid != w.reaped[k].pid))
  }

  // ---------------------------------------------------------------- the invariant

  ghost predicate PhaseInv(w: World) {
    && (w.phase.Serving? || w.reaped == [])
    && match w.phase
       case Starting(k) => StartedPrefix(w, k) && forall n :: n in w.services ==> w.services[n].state != Failed
       case Aborted(k) => k < |w.order| && StartedPrefix(w, k)
       case Serving => forall n :: n in w.hist ==> w.hist[n].starts > 0
       case Stopping(k) => (forall n :: n in w.hist ==> w.hist[n].starts > 0) && StoppedSuffix(w, k)
  }

  ghost predicate StartedPrefix(w: World, k: nat) {
    && k <= |w.order|
    && forall j :: 0 <= j < |w.order| && w.order[j] in w.hist ==> w.hist[w.order[j]].starts == if j < k then 1 else 0
  }

  ghost predicate StoppedSuffix(w: World, k: nat) {
    && k <= |w.order|
    && forall j :: |w.order| - k <= j < |w.order| && w.order[j] in w.services ==> w.services[w.order[j]].pid.None?
  }

  ghost predicate Inv(w: World) {
    && Ordered(w.services, w.order)
    && ServicesInv(w.services, w.hist, w.clock)
    && PidsInv(w)
    && PhaseInv(w)
  }

  ghost predicate ServicesInv(services: map<string, ManagedService>, hist: map<string, History>, clock: nat) {
    && hist.Keys == services.Keys
    && forall n {:trigger ServiceInv(services[n], hist[n], clock)} :: n in services ==> ServiceInv(services[n], hist[n], clock)
  }

  ghost predicate PidsInv(w: World) {
    PidsOwned(w) && (!w.phase.Stopping? ==> ProcessesRecorded(w))
  }

  lemma InitialInv(w: World)
    requires Initial(w)
    ensures Inv(w)
  {
  }

  /** Two services never record the same pid. */
  lemma PidsDistinct(w: World, a: string, b: string)
    requires PidsOwned(w) && a in w.services && b in w.services
    requires w.services[a].pid.Some? && w.services[a].pid == w.services[b].pid
    ensures a == b
  {
  }
}
