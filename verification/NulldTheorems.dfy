/** What holds in every reachable world of the supervisor, whatever its environment does. */
module NulldTheorems {
  import opened Collections
  import opened Wrappers
  import opened Services
  import opened NulldModel

  // ---------------------------------------------------------------- the invariant is kept

  /** Rewriting one service, its definition apart, and moving the clock on. */
  lemma OneServiceChanges(w: World, name: string, svc: ManagedService, h: History, clock: nat)
    requires Ordered(w.services, w.order) && ServicesInv(w.services, w.hist, w.clock)
    requires name in w.services && svc.def == w.services[name].def
    requires clock >= w.clock && ServiceInv(svc, h, clock)
    ensures Ordered(w.services[name := svc], w.order)
    ensures ServicesInv(w.services[name := svc], w.hist[name := h], clock)
  {
    var services := w.services[name := svc];
    forall i, d | 0 <= i < |w.order| && w.order[i] in services && d in services[w.order[i]].def.dependsOn
      ensures d in w.order[..i]
    {
      assert d in w.services[w.order[i]].def.dependsOn;
    }
    forall n | n in services && n != name ensures ServiceInv(services[n], w.hist[n], clock) {
      assert ServiceInv(w.services[n], w.hist[n], w.clock);
    }
  }

  lemma SpawnOkKeepsPids(w: World, name: string, pid: nat)
    requires Inv(w) && MayStart(w, name) && pid !in w.children
    ensures PidsInv(AfterSpawn(w, name, pid))
  {
    var w' := AfterSpawn(w, name, pid);
    assert ServiceInv(w.services[name], w.hist[name], w.clock);
    assert w.services[name].pid.None? by { NotRunningYet(w, name); }
    forall n | n in w'.services && w'.services[n].pid.Some?
      ensures Location(w', w'.services[n].pid.value) == Some(ServiceProcess(n))
    {
      if n != name { assert Location(w, w.services[n].pid.value) == Some(ServiceProcess(n)); }
    }
    forall p | p in w'.children ensures ProcessRecorded(w', w'.children[p], p) {
      if p != pid { assert ProcessRecorded(w, w.children[p], p); }
    }
  }

  /** What may be started is either fresh or waiting, and then it was started before. */
  lemma NotRunningYet(w: World, name: string)
    requires Inv(w) && MayStart(w, name)
    ensures w.services[name].pid.None?
    ensures w.hist[name].starts == 0 <==> w.phase.Starting?
  {
    assert ServiceInv(w.services[name], w.hist[name], w.clock);
    if w.phase.Starting? {
      assert w.hist[w.order[w.phase.k]].starts == 0;
    }
  }

  lemma SpawnOkKeepsPhase(w: World, name: string, pid: nat)
    requires Inv(w) && MayStart(w, name) && pid !in w.children
    ensures PhaseInv(AfterSpawn(w, name, pid))
  {
    NotRunningYet(w, name);
  }

  lemma SpawnOkKeepsInv(w: World, name: string, pid: nat)
    requires Inv(w) && MayStart(w, name) && pid !in w.children
    ensures Inv(AfterSpawn(w, name, pid))
  {
    var w' := AfterSpawn(w, name, pid);
    NotRunningYet(w, name);
    StartKeepsServiceInv(w.services[name], w.hist[name], w.clock, pid);
    OneServiceChanges(w, name, w'.services[name], w'.hist[name], w.clock);
    SpawnOkKeepsPids(w, name, pid);
    SpawnOkKeepsPhase(w, name, pid);
  }

  lemma SpawnFailedKeepsPids(w: World, name: string)
    requires PidsInv(w) && name in w.services && w.services[name].pid.None?
    ensures PidsInv(AfterSpawnFailed(w, name))
  {
  }

  lemma SpawnFailedKeepsInv(w: World, name: string)
    requires Inv(w) && MayStart(w, name)
    ensures Inv(AfterSpawnFailed(w, name))
  {
    var svc := w.services[name].(state := Failed);
    NotRunningYet(w, name);
    assert ServiceInv(w.services[name], w.hist[name], w.clock);
    OneServiceChanges(w, name, svc, w.hist[name], w.clock);
    assert w.hist[name := w.hist[name]] == w.hist;
    SpawnFailedKeepsPids(w, name);
  }

  lemma ReapKeepsInv(w: World, pid: nat, reason: ExitReason)
    requires Inv(w) && w.phase == Serving && pid in w.children
    ensures Inv(AfterReap(w, pid, reason))
  {
    var w' := AfterReap(w, pid, reason);
    var r := Reaped(pid, reason, w.children[pid]);
    forall n | n in w'.services && w'.services[n].pid.Some?
      ensures Location(w', w'.services[n].pid.value) == Some(ServiceProcess(n))
    {
      FirstOwnerAppend(w.reaped, r, w.services[n].pid.value);
      assert Location(w, w.services[n].pid.value) == Some(ServiceProcess(n));
    }
    forall p | p in w'.children
      ensures ProcessRecorded(w', w'.children[p], p)
           && (w'.children[p].ServiceProcess? ==> FirstOwner(w'.reaped, p).None?)
    {
      FirstOwnerAppend(w.reaped, r, p);
      assert ProcessRecorded(w, w.children[p], p);
    }
    assert ProcessRecorded(w, w.children[pid], pid);
    if w.children[pid].ServiceProcess? { NoneMeansAbsent(w.reaped, pid); }
    forall k | 0 <= k < |w'.reaped|
      ensures ProcessRecorded(w', w'.reaped[k].owner, w'.reaped[k].pid)
           && (w'.reaped[k].owner.ServiceProcess? ==> forall j :: 0 <= j < k ==> w'.reaped[j].pid != w'.reaped[k].pid)
    {
      if k < |w.reaped| { assert ProcessRecorded(w, w.reaped[k].owner, w.reaped[k].pid); }
    }
  }

  lemma {:induction false} NoneMeansAbsent(reaped: seq<Reaped>, pid: nat)
    requires FirstOwner(reaped, pid).None?
    ensures forall j :: 0 <= j < |reaped| ==> reaped[j].pid != pid
  {
    if reaped != [] { NoneMeansAbsent(reaped[1..], pid); }
  }

  /**
   * The batch is reaped before any exit is handled, and pids may be reused meanwhile; still the
   * service found under a reaped pid is exactly the one whose process it was.
   */
  lemma ExitIsTheOwners(w: World, found: Option<string>)
    requires PidsOwned(w) && ProcessesRecorded(w) && MayHandle(w, found)
    ensures match w.reaped[0].owner
            case Orphan => found == None
            case ServiceProcess(n) => found == Some(n)
  {
  }

  /** A handled exit, case by case: the owner's next state, and nothing else. */
  lemma HandleExitMeaning(w: World, found: Option<string>, dt: nat)
    requires MayHandle(w, found)
    ensures var w', exit := AfterHandle(w, found, dt), w.reaped[0];
      && w'.reaped == w.reaped[1..] && w'.clock == w.clock + dt
      && w'.services.Keys == w.services.Keys
      && (forall n :: n in w.services && found != Some(n) ==> w'.services[n] == w.services[n])
      && (found.Some? ==>
            && w.services[found.value].pid == Some(exit.pid)
            && ExitHandled(w.services[found.value], exit.reason, w.clock, w.clock + dt, w'.services[found.value])
            && w'.hist[found.value].failingExits
               == w.hist[found.value].failingExits + (if exit.reason.Signaled? || exit.reason.code != 0 then 1 else 0))
      && (found.None? ==> forall n :: n in w.services ==> w.services[n].pid != Some(exit.pid))
  {
    if found.Some? { AfterExitMeaning(w.services[found.value], w.reaped[0].reason, w.clock, w.clock + dt); }
  }

  lemma HandleExitKeepsPids(w: World, found: Option<string>, dt: nat)
    requires PidsInv(w) && MayHandle(w, found)
    ensures PidsInv(AfterHandle(w, found, dt))
  {
    var w' := AfterHandle(w, found, dt);
    var exit := w.reaped[0];
    ExitIsTheOwners(w, found);
    forall n | n in w'.services && w'.services[n].pid.Some?
      ensures Location(w', w'.services[n].pid.value) == Some(ServiceProcess(n))
    {
      assert found != Some(n);
      assert w'.services[n] == w.services[n];
      assert Location(w, w.services[n].pid.value) == Some(ServiceProcess(n));
    }
    forall p | p in w'.children
      ensures ProcessRecorded(w', w'.children[p], p)
           && (w'.children[p].ServiceProcess? ==> FirstOwner(w'.reaped, p).None?)
    {
      assert ProcessRecorded(w, w.children[p], p);
    }
    forall k | 0 <= k < |w'.reaped|
      ensures ProcessRecorded(w', w'.reaped[k].owner, w'.reaped[k].pid)
           && (w'.reaped[k].owner.ServiceProcess? ==> forall j :: 0 <= j < k ==> w'.reaped[j].pid != w'.reaped[k].pid)
    {
      assert w'.reaped[k] == w.reaped[k + 1];
      assert ProcessRecorded(w, w.reaped[k + 1].owner, w.reaped[k + 1].pid);
    }
  }

  lemma OneExitKeepsServices(w: World, n: string, reason: ExitReason, dt: nat)
    requires Ordered(w.services, w.order) && ServicesInv(w.services, w.hist, w.clock)
    requires n in w.services && w.services[n].pid.Some?
    ensures var services := w.services[n := AfterExit(w.services[n], reason, w.clock, w.clock + dt)];
            Ordered(services, w.order)
            && ServicesInv(services, w.hist[n := CountExit(w.hist[n], reason)], w.clock + dt)
  {
    var svc, h := w.services[n], w.hist[n];
    assert ServiceInv(svc, h, w.clock);
    ExitKeepsServiceInv(svc, h, reason, w.clock, dt);
    OneServiceChanges(w, n, AfterExit(svc, reason, w.clock, w.clock + dt),
                      CountExit(h, reason), w.clock + dt);
  }

  lemma HandleExitKeepsServices(w: World, found: Option<string>, dt: nat)
    requires Ordered(w.services, w.order) && ServicesInv(w.services, w.hist, w.clock) && MayHandle(w, found)
    ensures Ordered(AfterHandle(w, found, dt).services, w.order)
    ensures ServicesInv(AfterHandle(w, found, dt).services, AfterHandle(w, found, dt).hist, w.clock + dt)
  {
    if found.Some? {
      OneExitKeepsServices(w, found.value, w.reaped[0].reason, dt);
    } else {
      ClockMoves(w, w.clock + dt);
    }
  }

  lemma HandleExitKeepsInv(w: World, found: Option<string>, dt: nat)
    requires Inv(w) && MayHandle(w, found)
    ensures Inv(AfterHandle(w, found, dt))
  {
    HandleExitKeepsServices(w, found, dt);
    HandleExitKeepsPids(w, found, dt);
  }

  lemma ClockMoves(w: World, clock: nat)
    requires ServicesInv(w.services, w.hist, w.clock) && clock >= w.clock
    ensures ServicesInv(w.services, w.hist, clock)
  {
    forall n | n in w.services ensures ServiceInv(w.services[n], w.hist[n], clock) {
      assert ServiceInv(w.services[n], w.hist[n], w.clock);
    }
  }

  lemma StopNextKeepsServices(w: World, gone: bool)
    requires Ordered(w.services, w.order) && ServicesInv(w.services, w.hist, w.clock) && MayStop(w)
    ensures var w' := AfterStop(w, gone);
            Ordered(w'.services, w'.order) && ServicesInv(w'.services, w'.hist, w'.clock)
  {
    var name := w.order[|w.order| - 1 - w.phase.k];
    var svc := w.services[name];
    if svc.pid.Some? {
      assert ServiceInv(svc, w.hist[name], w.clock);
      OneServiceChanges(w, name, svc.(pid := None, state := Stopped), w.hist[name], w.clock);
      assert w.hist[name := w.hist[name]] == w.hist;
    }
  }

  lemma StopNextKeepsPhase(w: World, gone: bool)
    requires PhaseInv(w) && MayStop(w)
    ensures PhaseInv(AfterStop(w, gone))
  {
  }

  lemma StopNextKeepsInv(w: World, gone: bool)
    requires Inv(w) && MayStop(w)
    ensures Inv(AfterStop(w, gone))
  {
    StopNextKeepsServices(w, gone);
    StopNextKeepsPids(w, gone);
    StopNextKeepsPhase(w, gone);
  }

  lemma StopNextKeepsPids(w: World, gone: bool)
    requires NoDuplicates(w.order) && PidsInv(w) && MayStop(w)
    ensures PidsInv(AfterStop(w, gone))
  {
  }

  lemma StepKeepsInv(w: World, e: Event)
    requires Inv(w) && Enabled(w, e)
    ensures Inv(Apply(w, e))
  {
    match e
    case SpawnOk(name, pid) => SpawnOkKeepsInv(w, name, pid);
    case SpawnFailed(name) => SpawnFailedKeepsInv(w, name);
    case Reap(pid, reason) => ReapKeepsInv(w, pid, reason);
    case HandleExit(found, dt) => HandleExitKeepsInv(w, found, dt);
    case StopNext(gone) => StopNextKeepsInv(w, gone);
    case Adopt(pid) => AdoptKeepsInv(w, pid);
    case Quiet =>
    case Tick(dt) => RelabelKeepsInv(w, w.clock + dt, w.phase);
    case BeginServing => RelabelKeepsInv(w, w.clock, Serving);
    case BeginStopping => RelabelKeepsInv(w, w.clock, Stopping(0));
  }

  lemma AdoptKeepsInv(w: World, pid: nat)
    requires Inv(w) && pid !in w.children
    ensures Inv(w.(children := w.children[pid := Orphan]))
  {
    var w' := w.(children := w.children[pid := Orphan]);
    forall n | n in w'.services && w'.services[n].pid.Some?
      ensures Location(w', w'.services[n].pid.value) == Some(ServiceProcess(n))
    {
      assert Location(w, w.services[n].pid.value) == Some(ServiceProcess(n));
    }
    if !w.phase.Stopping? {
      forall p | p in w'.children ensures ProcessRecorded(w', w'.children[p], p) {
        if p != pid { assert ProcessRecorded(w, w.children[p], p); }
      }
      forall k | 0 <= k < |w'.reaped| ensures ProcessRecorded(w', w'.reaped[k].owner, w'.reaped[k].pid) {
        assert ProcessRecorded(w, w.reaped[k].owner, w.reaped[k].pid);
      }
    }
  }

  /** Steps that only move the clock or the phase. */
  lemma RelabelKeepsInv(w: World, clock: nat, phase: Phase)
    requires Inv(w) && clock >= w.clock && PhaseInv(w.(phase := phase))
    requires phase.Stopping? || !w.phase.Stopping?
    ensures Inv(w.(clock := clock, phase := phase))
  {
    var w' := w.(clock := clock, phase := phase);
    ClockMoves(w, clock);
    forall n | n in w'.services && w'.services[n].pid.Some?
      ensures Location(w', w'.services[n].pid.value) == Some(ServiceProcess(n))
    {
      assert Location(w, w.services[n].pid.value) == Some(ServiceProcess(n));
    }
    if !w.phase.Stopping? {
      forall p | p in w'.children ensures ProcessRecorded(w', w'.children[p], p) {
        assert ProcessRecorded(w, w.children[p], p);
      }
      forall k | 0 <= k < |w'.reaped| ensures ProcessRecorded(w', w'.reaped[k].owner, w'.reaped[k].pid) {
        assert ProcessRecorded(w, w.reaped[k].owner, w.reaped[k].pid);
      }
    }
  }

  lemma {:induction false} RunKeepsInv(w: World, events: seq<Event>)
    requires Inv(w) && Legal(w, events)
    ensures Inv(Run(w, events))
    decreases |events|
  {
    if events != [] {
      StepKeepsInv(w, events[0]);
      RunKeepsInv(Apply(w, events[0]), events[1..]);
    }
  }

  lemma ReachableInv(w: World)
    requires Reachable(w)
    ensures Inv(w)
  {
    var start, events :| Initial(start) && Leads(start, events, w);
    InitialInv(start);
    RunKeepsInv(start, events);
  }

  // ---------------------------------------------------------------- safety over all runs

  /**
   * The amortised restart bound: 30 R <= T + 119 in seconds, where R counts the restarts performed
   * and T is the time since the first start. Resets of the backoff never beat the cap.
   */
  lemma RestartBound(w: World, n: string)
    requires Reachable(w) && n in w.hist && w.hist[n].starts > 0
    ensures 30_000_000_000 * (w.hist[n].starts - 1) <= w.clock - w.hist[n].firstStart + 119_000_000_000
  {
    ReachableInv(w);
    assert ServiceInv(w.services[n], w.hist[n], w.clock);
  }

  /** A service that dies as soon as it starts, after `n` restarts. */
  function CrashLoop(n: nat): World {
    var elapsed := CrashLoopTime(n);
    var svc := ManagedService(ServiceDef("s", "s", [], [], Always), Some(1), Running, n, Some(elapsed),
                              if n == 0 then None else Some(elapsed));
    World(map["s" := svc], ["s"], Serving, elapsed, map[1 := ServiceProcess("s")], [],
          map["s" := History(n + 1, n, 0)])
  }

  function CrashLoopTime(n: nat): nat {
    if n == 0 then 0 else CrashLoopTime(n - 1) + CalculateBackoff(n - 1)
  }

  lemma {:induction false} CrashLoopBudget(n: nat)
    ensures CrashLoopTime(n) == Seconds(30 * n) - Slack(n)
  {
    if n > 0 { CrashLoopBudget(n - 1); }
  }

  lemma CrashLoopStep(n: nat) returns (events: seq<Event>)
    ensures Leads(CrashLoop(n), events, CrashLoop(n + 1))
  {
    hide Legal;
    hide Run;
    hide Leads;
    var w0 := CrashLoop(n);
    var w1 := AfterReap(w0, 1, Signaled(9));
    var w2 := AfterHandle(w1, Some("s"), 0);
    var w3 := w2.(clock := w2.clock + CalculateBackoff(n));
    var e1, e2, e3, e4 := Reap(1, Signaled(9)), HandleExit(Some("s"), 0), Tick(CalculateBackoff(n)), SpawnOk("s", 1);
    LeadsOne(w0, e1);
    LeadsOne(w1, e2);
    LeadsOne(w2, e3);
    LeadsOne(w3, e4);
    assert Apply(w3, e4) == CrashLoop(n + 1);
    LeadsThen(w0, [e1], w1, [e2], w2);
    LeadsThen(w0, [e1] + [e2], w2, [e3], w3);
    LeadsThen(w0, [e1] + [e2] + [e3], w3, [e4], CrashLoop(n + 1));
    events := [e1] + [e2] + [e3] + [e4];
  }

  lemma CrashLoopBegins()
    ensures Reachable(CrashLoop(0))
  {
    hide Legal;
    hide Run;
    var def := ServiceDef("s", "s", [], [], Always);
    var start := World(map["s" := Unstarted(def)], ["s"], Starting(0), 0, map[], [], map["s" := History(0, 0, 0)]);
    assert Initial(start);
    var mid := AfterSpawn(start, "s", 1);
    LeadsOne(start, SpawnOk("s", 1));
    LeadsOne(mid, BeginServing);
    hide Leads;
    LeadsThen(start, [SpawnOk("s", 1)], mid, [BeginServing], CrashLoop(0));
  }

  lemma {:induction false} CrashLoopReachable(n: nat)
    ensures Reachable(CrashLoop(n))
  {
    hide CrashLoop;
    hide Leads;
    hide Initial;
    if n == 0 {
      CrashLoopBegins();
    } else {
      CrashLoopReachable(n - 1);
      var start, events :| Initial(start) && Leads(start, events, CrashLoop(n - 1));
      var more := CrashLoopStep(n - 1);
      LeadsThen(start, events, CrashLoop(n - 1), more, CrashLoop(n));
    }
  }

  /** No smaller constant than 119 would do: from five restarts on the bound is met with equality. */
  lemma RestartBoundIsTight(restarts: nat)
    requires restarts >= 5
    ensures exists w :: Reachable(w) && "s" in w.hist && w.hist["s"].starts - 1 == restarts
              && 30_000_000_000 * restarts == w.clock - w.hist["s"].firstStart + 119_000_000_000
  {
    CrashLoopReachable(restarts);
    CrashLoopBudget(restarts);
    SlackBounds(restarts);
    assert CrashLoop(restarts).hist["s"].starts - 1 == restarts;
  }

  /** The 32-bit restart counter cannot wrap before 30 * (2^32 - 2) - 119 seconds have passed. */
  lemma CounterFits(w: World, n: string)
    requires Reachable(w) && n in w.services && n in w.hist
    requires w.clock - w.hist[n].firstStart < 128_849_018_701_000_000_000
    ensures w.services[n].restartCount < 0x1_0000_0000
  {
    ReachableInv(w);
    assert ServiceInv(w.services[n], w.hist[n], w.clock);
    if w.hist[n].starts > 0 {
      RestartBound(w, n);
      assert w.hist[n].starts - 1 < 0xFFFF_FFFE;
    }
  }

  /** Pids: recorded exactly while Running, pairwise distinct, each one the service's own process. */
  lemma PidSafety(w: World)
    requires Reachable(w)
    ensures forall n :: n in w.services ==> (w.services[n].pid.Some? <==> w.services[n].state == Running)
    ensures forall n, m ::
              (n in w.services && m in w.services && w.services[n].pid.Some? && w.services[n].pid == w.services[m].pid)
              ==> n == m
    ensures w.reaped == [] ==> forall n :: n in w.services && w.services[n].pid.Some? ==>
              w.services[n].pid.value in w.children
              && w.children[w.services[n].pid.value] == ServiceProcess(n)
  {
    ReachableInv(w);
    forall n | n in w.services ensures w.services[n].pid.Some? <==> w.services[n].state == Running {
      assert ServiceInv(w.services[n], w.hist[n], w.clock);
    }
    forall n, m | n in w.services && m in w.services && w.services[n].pid.Some?
                  && w.services[n].pid == w.services[m].pid
      ensures n == m
    {
      PidsDistinct(w, n, m);
    }
    forall n | w.reaped == [] && n in w.services && w.services[n].pid.Some?
      ensures w.services[n].pid.value in w.children
           && w.children[w.services[n].pid.value] == ServiceProcess(n)
    {
      assert Location(w, w.services[n].pid.value) == Some(ServiceProcess(n));
    }
  }

  /** A waiting service has a restart scheduled, and the policy limits how often it ever starts. */
  lemma PolicySafety(w: World, n: string)
    requires Reachable(w) && n in w.services && n in w.hist
    ensures w.services[n].state == WaitingRestart ==> w.services[n].nextRestart.Some?
    ensures w.services[n].def.restart == Never ==> w.hist[n].starts <= 1
    ensures w.services[n].def.restart == OnFailure ==> w.hist[n].starts <= w.hist[n].failingExits + 1
  {
    ReachableInv(w);
    assert ServiceInv(w.services[n], w.hist[n], w.clock);
  }

  /** Failed is for good: neither the state nor the number of starts changes again. */
  lemma {:induction false} FailedIsFinal(w: World, events: seq<Event>, n: string)
    requires Inv(w) && Legal(w, events)
    requires n in w.services && n in w.hist && w.services[n].state == Failed
    ensures n in Run(w, events).services && Run(w, events).services[n] == w.services[n]
    ensures n in Run(w, events).hist && Run(w, events).hist[n] == w.hist[n]
    decreases |events|
  {
    if events != [] {
      FailedStaysFailed(w, events[0], n);
      StepKeepsInv(w, events[0]);
      FailedIsFinal(Apply(w, events[0]), events[1..], n);
    }
  }

  lemma FailedStaysFailed(w: World, e: Event, n: string)
    requires Inv(w) && Enabled(w, e)
    requires n in w.services && n in w.hist && w.services[n].state == Failed
    ensures n in Apply(w, e).services && Apply(w, e).services[n] == w.services[n]
    ensures n in Apply(w, e).hist && Apply(w, e).hist[n] == w.hist[n]
  {
    assert ServiceInv(w.services[n], w.hist[n], w.clock);
    if e.SpawnOk? { NotRunningYet(w, e.name); }
    if e.SpawnFailed? { NotRunningYet(w, e.name); }
  }

  // ---------------------------------------------------------------- dependency-closed start and stop

  /** `path` goes from a service to one of its transitive dependencies. */
  ghost predicate IsDependencyPath(w: World, path: seq<string>) {
    && path != []
    && forall i, j :: 0 <= i && j == i + 1 && j < |path| ==> HasDependency(w, path[i], path[j])
  }

  ghost predicate HasDependency(w: World, n: string, d: string) {
    n in w.services && d in w.services[n].def.dependsOn
  }

  lemma {:induction false} PathDescends(w: World, path: seq<string>, q: nat)
    requires Ordered(w.services, w.order) && IsDependencyPath(w, path)
    requires q < |w.order| && w.order[q] == path[0]
    ensures exists p :: 0 <= p <= q && w.order[p] == path[|path| - 1]
    ensures |path| > 1 ==> exists p :: 0 <= p < q && w.order[p] == path[|path| - 1]
    decreases |path|
  {
    if |path| > 1 {
      var d := path[1];
      assert HasDependency(w, path[0], d);
      assert d in w.order[..q];
      var r :| 0 <= r < q && w.order[r] == d;
      assert IsDependencyPath(w, path[1..]);
      PathDescends(w, path[1..], r);
    }
  }

  /**
   * At every point of start_all, also after it gave up on a failed spawn, whatever has been
   * started has had all its transitive dependencies started.
   */
  lemma StartedSetIsClosed(w: World, path: seq<string>)
    requires Reachable(w) && IsDependencyPath(w, path)
    requires path[0] in w.hist && w.hist[path[0]].starts > 0
    ensures path[|path| - 1] in w.hist && w.hist[path[|path| - 1]].starts > 0
  {
    ReachableInv(w);
    assert path[0] in w.order;
    var q :| 0 <= q < |w.order| && w.order[q] == path[0];
    PathDescends(w, path, q);
    var p :| 0 <= p <= q && w.order[p] == path[|path| - 1];
    assert w.order[p] in w.services;
  }

  /** stop_all signals a service only when none of its transitive dependents holds a pid any more. */
  lemma DependentsStoppedFirst(w: World, gone: bool, path: seq<string>)
    requires Reachable(w) && MayStop(w) && IsDependencyPath(w, path) && |path| > 1
    requires path[|path| - 1] == w.order[|w.order| - 1 - w.phase.k]
    requires path[0] in w.services
    ensures w.services[path[0]].pid.None?
  {
    ReachableInv(w);
    var q :| 0 <= q < |w.order| && w.order[q] == path[0];
    PathDescends(w, path, q);
    var p :| 0 <= p < q && w.order[p] == path[|path| - 1];
    assert p == |w.order| - 1 - w.phase.k;
  }

  /** Once stop_all is through, no service holds a pid. */
  lemma StopLeavesNoPid(w: World, n: string)
    requires Reachable(w) && w.phase == Stopping(|w.order|) && n in w.services
    ensures w.services[n].pid.None?
  {
    ReachableInv(w);
    assert n in w.order;
  }
}
