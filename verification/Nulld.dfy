/**
 * The supervisor as an object updated in place (cmd/nulld/src/supervisor.rs), over a kernel whose
 * answers are arbitrary. Every method performs a run of the step system in NulldModel.
 */
module Nulld {
  import opened Collections
  import opened Wrappers
  import opened Services
  import opened NulldModel
  import opened NulldTheorems

  /**
   * The environment: a clock that never goes back, the table of unreaped children, and a record of
   * the calls made. Where `spawns` holds, every process asked for comes up.
   */
  class Kernel {
    const spawns: bool
    var clock: nat
    var children: map<nat, Owner>
    ghost var calls: seq<Call>

    constructor (spawns: bool)
      ensures this.spawns == spawns && children == map[]
    {
      this.spawns := spawns;
      clock, children, calls := 0, map[], [];
    }

    method Now() returns (t: nat)
      modifies this`clock
      ensures clock >= old(clock) && t == clock
    {
      var dt: nat :| 0 <= dt;
      clock := clock + dt;
      t := clock;
    }

    method Sleep(atLeast: nat)
      modifies this`clock
      ensures clock >= old(clock) + atLeast
    {
      var dt: nat :| 0 <= dt;
      clock := clock + atLeast + dt;
    }

    /** A spawn may fail; the pid of a new process is not that of an unreaped child. */
    method Spawn(binary: string, args: seq<string>, name: string) returns (pid: Option<nat>)
      modifies this`children, this`calls
      ensures calls == old(calls) + [Spawned(binary, args, pid)]
      ensures pid.None? ==> children == old(children)
      ensures pid.Some? ==> pid.value !in old(children)
      ensures pid.Some? ==> children == old(children)[pid.value := ServiceProcess(name)]
      ensures spawns ==> pid.Some?
    {
      ghost var unused := FreshNat(children.Keys);
      var p: nat :| 0 <= p && p !in children;
      var fails: bool := *;
      if fails && !spawns {
        calls := calls + [Spawned(binary, args, None)];
        return None;
      }
      children := children[p := ServiceProcess(name)];
      calls := calls + [Spawned(binary, args, Some(p))];
      return Some(p);
    }

    /** waitpid(-1, WNOHANG): some exited child, or nothing to report. */
    method WaitAny() returns (exit: Option<(nat, ExitReason)>)
      modifies this`children, this`calls
      ensures calls == old(calls) + [Waited(exit)]
      ensures exit.None? ==> children == old(children)
      ensures exit.Some? ==> exit.value.0 in old(children) && children == old(children) - {exit.value.0}
    {
      var p: nat :| 0 <= p;
      var nothing: bool := *;
      exit := None;
      if !nothing && p in children {
        var code: int := *;
        exit := Some((p, if code >= 0 then Exited(code) else Signaled(-code)));
        children := children - {p};
      }
      calls := calls + [Waited(exit)];
    }

    /** The child may or may not heed it. */
    method Kill(pid: nat, signal: Signal)
      modifies this`calls
      ensures calls == old(calls) + [Killed(pid, signal)]
    {
      calls := calls + [Killed(pid, signal)];
    }

    /** waitpid(pid, WNOHANG): still alive, or gone. */
    method WaitFor(pid: nat) returns (gone: bool)
      modifies this`children, this`calls
      ensures children == if gone then old(children) - {pid} else old(children)
      ensures calls == if gone then old(calls) + [Collected(pid)] else old(calls)
    {
      gone := *;
      if gone {
        children := children - {pid};
        calls := calls + [Collected(pid)];
      }
    }
  }

  datatype SupervisorError =
    | DependencyError(reason: DepError)
    | UnknownService(service: string)
    | SpawnFailure(service: string)

  /** `defs` lists the definitions in the map, each once. */
  ghost predicate Lists(defs: seq<ServiceDef>, services: map<string, ManagedService>) {
    && DistinctNames(defs)
    && (forall n :: n in NameList(defs) <==> n in services)
    && (forall i :: 0 <= i < |defs| && defs[i].name in services ==> services[defs[i].name].def == defs[i])
  }

  ghost predicate NothingStarted(services: map<string, ManagedService>) {
    forall n :: n in services ==>
      && services[n].def.name == n && services[n].state == Stopped && services[n].pid == None
      && services[n].restartCount == 0 && services[n].lastStart == None && services[n].nextRestart == None
  }

  /** No later definition has the same name. */
  ghost predicate DefinedLast(defs: seq<ServiceDef>, i: nat)
    requires i < |defs|
  {
    forall j :: i < j < |defs| ==> defs[j].name != defs[i].name
  }

  lemma ResolvedIsOrdered(defs: seq<ServiceDef>, services: map<string, ManagedService>, order: seq<string>)
    requires Lists(defs, services) && IsStartOrder(defs, order)
    ensures Ordered(services, order)
  {
  }

  class Supervisor {
    const kernel: Kernel
    var services: map<string, ManagedService>
    var startOrder: seq<string>
    // What the program does not store: how far it is, exits reaped but not handled, and history.
    ghost var phase: Phase
    ghost var reaped: seq<Reaped>
    ghost var hist: map<string, History>

    ghost function View(): World
      reads this, kernel
    {
      World(services, startOrder, phase, kernel.clock, kernel.children, reaped, hist)
    }

    /** What has happened since `start`, when the calls so far were `calls`, is the run `events`. */
    ghost predicate Did(start: World, calls: seq<Call>, events: seq<Event>)
      reads this, kernel
    {
      Ran(start, calls, events, View(), kernel.calls)
    }

    /** Supervisor::new: each name once, not started, with the last of its definitions. */
    constructor (defs: seq<ServiceDef>, kernel: Kernel)
      ensures this.kernel == kernel && startOrder == [] && reaped == [] && phase == Starting(0)
      ensures NothingStarted(services)
      ensures forall n :: n in services <==> n in NameList(defs)
      ensures forall i :: 0 <= i < |defs| && DefinedLast(defs, i) ==>
                defs[i].name in services && services[defs[i].name].def == defs[i]
    {
      this.kernel := kernel;
      var collected: map<string, ManagedService> := map[];
      for i := 0 to |defs|
        invariant NothingStarted(collected)
        invariant forall n :: n in collected <==> n in NameList(defs[..i])
        invariant forall j :: 0 <= j < i && DefinedLast(defs[..i], j) ==>
                    defs[j].name in collected && collected[defs[j].name].def == defs[j]
      {
        assert NameList(defs[..i + 1]) == NameList(defs[..i]) + [defs[i].name];
        forall j | 0 <= j < i && DefinedLast(defs[..i + 1], j) ensures DefinedLast(defs[..i], j) && defs[j].name != defs[i].name {
          assert defs[..i + 1][i].name != defs[..i + 1][j].name;
          forall k | j < k < i ensures defs[..i][k].name != defs[..i][j].name {
            assert defs[..i + 1][k].name != defs[..i + 1][j].name;
          }
        }
        collected := collected[defs[i].name := Unstarted(defs[i])];
      }
      assert defs[..|defs|] == defs;
      services := collected;
      startOrder := [];
      reaped, phase, hist := [], Starting(0), map[];
    }

    /** The definitions, in whatever order the hash map yields them. */
    method Definitions() returns (defs: seq<ServiceDef>)
      requires NothingStarted(services)
      ensures Lists(defs, services)
    {
      var names := Enumerate(services.Keys);
      var services := services;
      defs := seq(|names|, i requires 0 <= i < |names| => services[names[i]].def);
      assert NameList(defs) == names;
    }

    /**
     * start_all: nothing is spawned unless an order exists; otherwise services are spawned along
     * it until all run or one spawn fails. `start` is the world once the order is known.
     */
    method StartAll()
      returns (r: Result<(), SupervisorError>, ghost defs: seq<ServiceDef>, ghost start: World, ghost events: seq<Event>)
      requires NothingStarted(services) && reaped == []
      requires forall pid :: pid in kernel.children ==> kernel.children[pid] == Orphan
      modifies this, kernel
      ensures Lists(defs, old(services))
      ensures (r.Failure? && r.error.DependencyError?) <==> !(AllPresent(defs) && !HasCycle(defs))
      ensures r.Failure? && r.error.DependencyError? ==>
                services == old(services) && kernel.children == old(kernel.children) && kernel.calls == old(kernel.calls)
      ensures !(r.Failure? && r.error.DependencyError?) ==> Initial(start) && Did(start, old(kernel.calls), events)
      ensures r.Success? ==> phase == Serving && reaped == []
      ensures r.Failure? && r.error.SpawnFailure? ==>
                phase.Aborted? && phase.k < |startOrder| && startOrder[phase.k] == r.error.service
      ensures !(r.Failure? && r.error.UnknownService?)
      ensures kernel.spawns && r.Failure? ==> r.error.DependencyError?
    {
      var listed := Definitions();
      defs := listed;
      var resolved := ResolveStartOrder(listed);
      if resolved.Failure? {
        start, events := View(), [];
        return Failure(DependencyError(resolved.error)), defs, start, events;
      }
      startOrder := resolved.value;
      phase, hist := Starting(0), map n | n in services :: History(0, 0, 0);
      ResolvedIsOrdered(defs, services, startOrder);
      start := View();
      r, events := StartInOrder();
    }

    /** The spawning loop of start_all. */
    method StartInOrder() returns (r: Result<(), SupervisorError>, ghost events: seq<Event>)
      requires phase == Starting(0) && reaped == [] && services.Keys == hist.Keys
      requires forall n :: n in startOrder ==> n in services
      modifies this, kernel
      ensures Did(old(View()), old(kernel.calls), events)
      ensures startOrder == old(startOrder) && reaped == []
      ensures r.Success? ==> phase == Serving
      ensures r.Failure? ==>
                phase.Aborted? && phase.k < |startOrder| && r.error == SpawnFailure(startOrder[phase.k])
      ensures kernel.spawns ==> r.Success?
    {
      hide Ran;
      RanNowhere(View(), kernel.calls);
      ghost var start, calls := View(), kernel.calls;
      events := [];
      var order := startOrder;
      for i := 0 to |order|
        invariant Did(start, calls, events)
        invariant phase == Starting(i) && startOrder == order && reaped == []
        invariant services.Keys == start.services.Keys == hist.Keys
      {
        ghost var before, soFar := View(), kernel.calls;
        var started, more := StartService(order[i]);
        RanThen(start, calls, events, before, soFar, more, View(), kernel.calls);
        events := events + more;
        if started.Failure? { return started, events; }
      }
      ghost var before, soFar := View(), kernel.calls;
      phase := Serving;
      RanOne(before, soFar, BeginServing);
      RanThen(start, calls, events, before, soFar, [BeginServing], View(), kernel.calls);
      events := events + [BeginServing];
      r := Success(());
    }

    /** start_service: spawn, then note the pid and the time, or park the service in Failed. */
    method StartService(name: string) returns (r: Result<(), SupervisorError>, ghost events: seq<Event>)
      requires name in services ==> MayStart(View(), name) && name in hist
      modifies this, kernel`clock, kernel`children, kernel`calls
      ensures Did(old(View()), old(kernel.calls), events)
      ensures startOrder == old(startOrder) && reaped == old(reaped)
      ensures hist.Keys == old(hist).Keys && services.Keys == old(services).Keys && kernel.clock >= old(kernel.clock)
      ensures r == Failure(UnknownService(name)) <==> name !in old(services)
      ensures name !in old(services) ==> View() == old(View())
      ensures r.Success? ==>
                exists pid, now :: pid !in old(kernel.children) && old(kernel.clock) <= now
                  && services == old(services)[name := old(services)[name].(pid := Some(pid), state := Running, lastStart := Some(now))]
                  && hist == old(hist)[name := CountStart(old(hist)[name], now)]
                  && kernel.children == old(kernel.children)[pid := ServiceProcess(name)]
                  && phase == if old(phase).Starting? then Starting(old(phase).k + 1) else old(phase)
      ensures r.Failure? && name in old(services) ==>
                && r.error == SpawnFailure(name) && hist == old(hist)
                && services == old(services)[name := old(services)[name].(state := Failed)]
                && phase == if old(phase).Starting? then Aborted(old(phase).k) else old(phase)
      ensures name in services ==> Retried(old(services)[name], old(hist)[name], services[name], hist[name], kernel.spawns)
      ensures forall n :: n in services && n in hist && n != name ==>
                services[n] == old(services)[n] && hist[n] == old(hist)[n]
      ensures kernel.spawns && name in services ==> r.Success?
    {
      hide Ran;
      RanNowhere(View(), kernel.calls);
      events := [];
      if name !in services { return Failure(UnknownService(name)), events; }
      ghost var before, soFar := View(), kernel.calls;
      var svc := services[name];
      var spawned := kernel.Spawn(svc.def.binary, svc.def.args, name);
      if spawned.None? {
        services := services[name := svc.(state := Failed)];
        phase := if phase.Starting? then Aborted(phase.k) else phase;
        RanOne(before, soFar, SpawnFailed(name));
        return Failure(SpawnFailure(name)), [SpawnFailed(name)];
      }
      var now := kernel.Now();
      services := services[name := svc.(pid := spawned, state := Running, lastStart := Some(now))];
      phase := if phase.Starting? then Starting(phase.k + 1) else phase;
      hist := hist[name := CountStart(hist[name], now)];
      ghost var later := before.(clock := now);
      Later(before, soFar, now - before.clock, SpawnOk(name, spawned.value));
      assert View() == AfterSpawn(later, name, spawned.value);
      return Success(()), [Tick(now - before.clock)] + [SpawnOk(name, spawned.value)];
    }

    /**
     * reap_children: collect exits, until waitpid has none to report or `most` have been collected,
     * before any of them is handled.
     */
    method ReapChildren(most: nat) returns (batch: seq<(nat, ExitReason)>, ghost events: seq<Event>)
      requires phase == Serving && reaped == []
      modifies this`reaped, kernel`children, kernel`calls
      ensures Did(old(View()), old(kernel.calls), events)
      ensures Batch(batch) && |batch| <= most
      ensures events == ReapsOf(batch) + (if |batch| == most then [] else [Quiet])
    {
      hide Ran;
      batch, events := [], [];
      ghost var start, calls := View(), kernel.calls;
      RanNowhere(start, calls);
      while |batch| < most
        invariant Did(start, calls, events) && phase == Serving && Batch(batch) && |batch| <= most
        invariant events == ReapsOf(batch)
        decreases most - |batch|
      {
        ghost var before, soFar := View(), kernel.calls;
        var exit := kernel.WaitAny();
        if exit.None? {
          RanOne(before, soFar, Quiet);
          RanThen(start, calls, events, before, soFar, [Quiet], View(), kernel.calls);
          events := events + [Quiet];
          return;
        }
        var (pid, reason) := exit.value;
        reaped := reaped + [Reaped(pid, reason, before.children[pid])];
        RanOne(before, soFar, Reap(pid, reason));
        RanThen(start, calls, events, before, soFar, [Reap(pid, reason)], View(), kernel.calls);
        events := events + [Reap(pid, reason)];
        batch := batch + [(pid, reason)];
      }
    }

    /** `batch` is what the program knows of the exits reaped and not yet handled. */
    ghost predicate Batch(batch: seq<(nat, ExitReason)>)
      reads this
    {
      |batch| == |reaped| && forall i :: 0 <= i < |batch| ==> batch[i] == (reaped[i].pid, reaped[i].reason)
    }

    /** Some service holding `pid`, in the hash map's order. */
    method FindByPid(pid: nat) returns (found: Option<string>)
      ensures found.Some? ==> found.value in services && services[found.value].pid == Some(pid)
      ensures found.None? ==> forall n :: n in services ==> services[n].pid != Some(pid)
    {
      var names := Enumerate(services.Keys);
      for i := 0 to |names|
        invariant forall j :: 0 <= j < i ==> services[names[j]].pid != Some(pid)
      {
        if services[names[i]].pid == Some(pid) { return Some(names[i]); }
      }
      return None;
    }

    /** What handle_child_exit does to the service it found. */
    method ScheduleOrGiveUp(found: ManagedService, reason: ExitReason)
      returns (svc: ManagedService, ghost now1: nat, ghost dt: nat)
      modifies kernel`clock
      ensures svc == AfterExit(found, reason, now1, now1 + dt)
      ensures old(kernel.clock) <= now1 && kernel.clock == now1 + dt
    {
      svc, now1, dt := found.(pid := None), kernel.clock, 0;
      if ShouldRestart(svc.def.restart, reason) {
        var checked := kernel.Now();
        now1 := checked;
        if svc.lastStart.Some? && checked - svc.lastStart.value > Seconds(300) {
          svc := svc.(restartCount := 0);
        }
        var backoff := CalculateBackoff(svc.restartCount);
        svc := svc.(state := WaitingRestart);
        var now := kernel.Now();
        dt := now - checked;
        svc := svc.(nextRestart := Some(now + backoff), restartCount := svc.restartCount + 1);
      } else {
        svc := svc.(state := Failed);
      }
    }

    /** handle_child_exit: clear the pid, then schedule a restart or give the service up. */
    method HandleChildExit(pid: nat, reason: ExitReason)
      returns (ghost found: Option<string>, ghost now1: nat, ghost now2: nat, ghost events: seq<Event>)
      requires phase == Serving && reaped != [] && (reaped[0].pid, reaped[0].reason) == (pid, reason)
      requires services.Keys == hist.Keys
      modifies this, kernel`clock
      ensures Did(old(View()), old(kernel.calls), events)
      ensures phase == Serving && reaped == old(reaped)[1..] && startOrder == old(startOrder)
      ensures services.Keys == old(services).Keys && hist.Keys == old(hist).Keys
      ensures old(kernel.clock) <= now1 <= now2 <= kernel.clock
      ensures found.None? ==> forall n :: n in services ==> old(services)[n].pid != Some(pid)
      ensures found.Some? ==>
                && found.value in services && old(services)[found.value].pid == Some(pid)
                && ExitHandled(old(services)[found.value], reason, now1, now2, services[found.value])
      ensures forall n :: n in services && found != Some(n) ==>
                services[n] == old(services)[n] && hist[n] == old(hist)[n]
      ensures forall n :: n in services && old(services)[n].pid != Some(pid) ==>
                services[n] == old(services)[n] && hist[n] == old(hist)[n]
      ensures forall n :: n in hist ==> hist[n].starts == old(hist)[n].starts
      ensures kernel.clock >= old(kernel.clock)
    {
      hide Ran;
      ghost var start, calls := View(), kernel.calls;
      var service := FindByPid(pid);
      found, now1, now2 := service, kernel.clock, kernel.clock;
      reaped := reaped[1..];
      if service.Some? {
        var name := service.value;
        var svc;
        ghost var dt;
        svc, now1, dt := ScheduleOrGiveUp(services[name], reason);
        now2 := now1 + dt;
        AfterExitMeaning(services[name], reason, now1, now2);
        services := services[name := svc];
        hist := hist[name := CountExit(hist[name], reason)];
      }
      ghost var mid := start.(clock := now1);
      assert FoundByPid(mid, pid, found);
      Later(start, calls, now1 - start.clock, HandleExit(found, now2 - now1));
      events := [Tick(now1 - start.clock)] + [HandleExit(found, now2 - now1)];
    }

    /**
     * process_restarts: every service due when the clock was read at `now` is started again, or
     * fails to start and is given up; no other is touched.
     */
    method ProcessRestarts() returns (ghost now: nat, ghost events: seq<Event>)
      requires phase == Serving && reaped == [] && services.Keys == hist.Keys
      modifies this, kernel`clock, kernel`children, kernel`calls
      ensures Did(old(View()), old(kernel.calls), events)
      ensures phase == Serving && reaped == [] && startOrder == old(startOrder)
      ensures services.Keys == old(services).Keys && hist.Keys == old(hist).Keys
      ensures old(kernel.clock) <= now <= kernel.clock
      ensures Passed(old(services), old(hist), now, {}, services, hist, kernel.spawns)
    {
      hide Ran;
      hide Retried;
      hide Started;
      hide CountStart;
      hide Passed;
      ghost var start, calls := View(), kernel.calls;
      var clock := kernel.Now();
      now := clock;
      events := [Tick(clock - start.clock)];
      RanOne(start, calls, events[0]);
      var ready := set n | n in services && Due(services[n], clock);
      PassBegins(services, hist, now, kernel.spawns);
      while ready != {}
        invariant Did(start, calls, events)
        invariant phase == Serving && reaped == [] && startOrder == start.order && clock <= kernel.clock
        invariant services.Keys == start.services.Keys == hist.Keys == start.hist.Keys
        invariant Passed(start.services, start.hist, now, ready, services, hist, kernel.spawns)
        decreases |ready|
      {
        var name :| name in ready;
        ghost var before, soFar := View(), kernel.calls;
        StillDue(start.services, start.hist, now, ready, services, hist, name, kernel.spawns);
        var r, more := StartService(name);
        RanThen(start, calls, events, before, soFar, more, View(), kernel.calls);
        PassGoesOn(start.services, start.hist, now, ready, before.services, before.hist, name, services, hist, kernel.spawns);
        events := events + more;
        ready := ready - {name};
      }
    }

    /**
     * run_until_shutdown: `polls` main-loop turns pass before the shutdown flag is seen. `turns`
     * are what they did, and `views` the worlds between them.
     */
    method RunUntilShutdown(polls: nat, most: nat)
      returns (ghost views: seq<World>, ghost turns: seq<seq<Event>>, ghost events: seq<Event>)
      requires phase == Serving && reaped == [] && services.Keys == hist.Keys
      modifies this, kernel
      ensures Did(old(View()), old(kernel.calls), events) && events == Flatten(turns)
      ensures phase == Serving && reaped == [] && startOrder == old(startOrder)
      ensures services.Keys == old(services).Keys && hist.Keys == old(hist).Keys
      ensures |turns| == polls && |views| == polls + 1 && views[0] == old(View()) && views[polls] == View()
      ensures forall i :: 0 <= i < polls ==> IsTurn(views[i], turns[i], views[i + 1], most)
    {
      hide Ran;
      hide IsTurn;
      RanNowhere(View(), kernel.calls);
      ghost var start, calls := View(), kernel.calls;
      events, turns, views := [], [], [start];
      for poll := 0 to polls
        invariant Did(start, calls, events) && events == Flatten(turns)
        invariant phase == Serving && reaped == [] && startOrder == start.order
        invariant services.Keys == start.services.Keys && hist.Keys == start.hist.Keys
        invariant |turns| == poll && |views| == poll + 1 && views[0] == start && views[poll] == View()
        invariant forall i :: 0 <= i < poll ==> IsTurn(views[i], turns[i], views[i + 1], most)
      {
        ghost var before, soFar := View(), kernel.calls;
        var more := Turn(most);
        RanThen(start, calls, events, before, soFar, more, View(), kernel.calls);
        assert (turns + [more])[..poll] == turns;
        events, turns, views := events + more, turns + [more], views + [View()];
      }
    }

    /** One turn of the main loop: reap, handle the batch, process restarts, sleep. */
    method Turn(most: nat) returns (ghost events: seq<Event>)
      requires phase == Serving && reaped == [] && services.Keys == hist.Keys
      modifies this, kernel
      ensures Did(old(View()), old(kernel.calls), events) && IsTurn(old(View()), events, View(), most)
      ensures phase == Serving && reaped == [] && startOrder == old(startOrder)
      ensures services.Keys == old(services).Keys && hist.Keys == old(hist).Keys
    {
      hide Ran;
      hide ReapsIn;
      hide Passed;
      hide Overdue;
      hide Attended;
      hide Persists;
      ghost var start, calls := View(), kernel.calls;
      var batch, reaps := ReapChildren(most);
      ghost var before, soFar := View(), kernel.calls;
      var handled := HandleBatch(batch);
      RanThen(start, calls, reaps, before, soFar, handled, View(), kernel.calls);
      events := reaps + handled;

      ghost var mid := View();
      before, soFar := mid, kernel.calls;
      ghost var now, restarts;
      now, restarts := ProcessRestarts();
      RanThen(start, calls, events, before, soFar, restarts, View(), kernel.calls);
      events := events + restarts;

      before, soFar := View(), kernel.calls;
      kernel.Sleep(500_000_000);
      ghost var tick := Tick(kernel.clock - before.clock);
      RanOne(before, soFar, tick);
      RanThen(start, calls, events, before, soFar, [tick], View(), kernel.calls);
      events := events + [tick];
      BatchIsReaped(batch, most, handled + restarts + [tick]);
      assert events == reaps + (handled + restarts + [tick]);
      forall n | n in services
        ensures Persists(start.services[n], start.hist[n], services[n], hist[n])
        ensures Overdue(start.services[n], start.clock) ==> Attended(services[n], hist[n], start.hist[n].starts)
      {
        TurnPersists(start, mid, now, services, hist, n, kernel.spawns);
      }
      RanLeads(start, calls, events, View(), kernel.calls);
    }

    method HandleBatch(batch: seq<(nat, ExitReason)>) returns (ghost events: seq<Event>)
      requires phase == Serving && Batch(batch) && services.Keys == hist.Keys
      modifies this, kernel`clock
      ensures Did(old(View()), old(kernel.calls), events)
      ensures phase == Serving && reaped == [] && startOrder == old(startOrder)
      ensures services.Keys == old(services).Keys && hist.Keys == old(hist).Keys && kernel.clock >= old(kernel.clock)
      ensures forall n :: n in services && old(services)[n].pid.None? ==>
                services[n] == old(services)[n] && hist[n] == old(hist)[n]
      ensures forall n :: n in hist ==> hist[n].starts == old(hist)[n].starts
    {
      ghost var start, calls := View(), kernel.calls;
      events := [];
      for i := 0 to |batch|
        invariant Did(start, calls, events)
        invariant phase == Serving && Batch(batch[i..]) && startOrder == start.order
        invariant services.Keys == start.services.Keys && hist.Keys == start.hist.Keys && kernel.clock >= start.clock
        invariant forall n :: n in services && start.services[n].pid.None? ==>
                    services[n] == start.services[n] && hist[n] == start.hist[n]
        invariant forall n :: n in hist ==> hist[n].starts == start.hist[n].starts
      {
        ghost var before, soFar := View(), kernel.calls;
        ghost var found, now1, now2, more;
        found, now1, now2, more := HandleChildExit(batch[i].0, batch[i].1);
        RanThen(start, calls, events, before, soFar, more, View(), kernel.calls);
        events := events + more;
        assert batch[i + 1..] == batch[i..][1..];
      }
    }

    /**
     * stop_all: along the reversed order, clear the pid, signal, and wait up to five seconds
     * before killing; a killed process is left unreaped.
     */
    method StopAll() returns (ghost events: seq<Event>)
      requires phase == Serving && reaped == []
      requires forall n :: n in startOrder ==> n in services
      modifies this, kernel
      ensures Did(old(View()), old(kernel.calls), events)
      ensures phase == Stopping(|startOrder|) && startOrder == old(startOrder)
    {
      ghost var start, calls := View(), kernel.calls;
      phase := Stopping(0);
      events := [BeginStopping];
      RanOne(start, calls, BeginStopping);
      var stopOrder := Reverse(startOrder);
      for i := 0 to |stopOrder|
        invariant Did(start, calls, events)
        invariant phase == Stopping(i) && startOrder == start.order && services.Keys == start.services.Keys
      {
        ghost var before, soFar := View(), kernel.calls;
        var more := StopService(stopOrder[i]);
        RanThen(start, calls, events, before, soFar, more, View(), kernel.calls);
        events := events + more;
      }
    }

    /** One turn of stop_all's loop. */
    method StopService(name: string) returns (ghost events: seq<Event>)
      requires MayStop(View()) && name == startOrder[|startOrder| - 1 - phase.k]
      modifies this`services, this`phase, kernel
      ensures Did(old(View()), old(kernel.calls), events)
      ensures phase == Stopping(old(phase).k + 1) && services.Keys == old(services).Keys
      ensures var svc := old(services)[name];
        if svc.pid.None? then
          services == old(services) && kernel.children == old(kernel.children) && kernel.calls == old(kernel.calls)
        else
          && services == old(services)[name := svc.(pid := None, state := Stopped)]
          && var pid, asked := svc.pid.value, old(kernel.calls) + [Killed(svc.pid.value, SigTerm)];
             || (kernel.children == old(kernel.children) - {pid} && kernel.calls == asked + [Collected(pid)])
             || (kernel.children == old(kernel.children) && kernel.calls == asked + [Killed(pid, SigKill)]
                 && kernel.clock > old(kernel.clock) + 5_000_000_000)
    {
      hide Ran;
      ghost var before, soFar := View(), kernel.calls;
      var svc := services[name];
      var gone := false;
      if svc.pid.Some? {
        services := services[name := svc.(pid := None)];
        kernel.Kill(svc.pid.value, SigTerm);
        gone := WaitUpTo5Seconds(svc.pid.value);
        services := services[name := svc.(pid := None, state := Stopped)];
        assert services == before.services[name := svc.(pid := None, state := Stopped)];
      }
      phase := Stopping(phase.k + 1);
      assert kernel.calls == soFar + CallsOf(before.(clock := kernel.clock), StopNext(gone));
      Later(before, soFar, kernel.clock - before.clock, StopNext(gone));
      events := [Tick(kernel.clock - before.clock)] + [StopNext(gone)];
    }

    /** Poll, at least 100 ms apart, until the process is gone or, the deadline past, is killed. */
    method WaitUpTo5Seconds(pid: nat) returns (gone: bool)
      modifies kernel
      ensures kernel.clock >= old(kernel.clock)
      ensures kernel.children == if gone then old(kernel.children) - {pid} else old(kernel.children)
      ensures !gone ==> kernel.clock > old(kernel.clock) + 5_000_000_000
      ensures kernel.calls == old(kernel.calls) + (if gone then [Collected(pid)] else [Killed(pid, SigKill)])
    {
      var deadline := kernel.Now();
      deadline := deadline + Seconds(5);
      gone := false;
      var now := kernel.Now();
      while now <= deadline
        invariant kernel.clock >= old(kernel.clock) && now <= kernel.clock
        invariant !gone && kernel.children == old(kernel.children) && kernel.calls == old(kernel.calls)
        decreases deadline + 1 - now
      {
        gone := kernel.WaitFor(pid);
        if gone { return; }
        kernel.Sleep(100_000_000);
        now := kernel.Now();
      }
      kernel.Kill(pid, SigKill);
    }

    /** The supervisor's part of nulld's `run`: start, serve, stop. */
    method Session(polls: nat, most: nat)
      returns (r: Result<(), SupervisorError>, ghost start: World, ghost events: seq<Event>)
      requires NothingStarted(services) && reaped == []
      requires forall pid :: pid in kernel.children ==> kernel.children[pid] == Orphan
      modifies this, kernel
      ensures r.Failure? && r.error.DependencyError? ==> services == old(services) && kernel.calls == old(kernel.calls)
      ensures !(r.Failure? && r.error.DependencyError?) ==>
                Initial(start) && Did(start, old(kernel.calls), events) && Reachable(View())
      ensures r.Success? ==> phase == Stopping(|startOrder|) && forall n :: n in services ==> services[n].pid.None?
      ensures kernel.spawns && r.Failure? ==> r.error.DependencyError?
    {
      hide Ran;
      ghost var calls := kernel.calls;
      ghost var defs;
      r, defs, start, events := StartAll();
      if r.Failure? && r.error.DependencyError? { return; }
      FromInitial(start, calls, events, View(), kernel.calls);
      if r.Failure? { return; }
      ghost var before, soFar := View(), kernel.calls;
      ghost var views, turns, served;
      views, turns, served := RunUntilShutdown(polls, most);
      RanThen(start, calls, events, before, soFar, served, View(), kernel.calls);
      events := events + served;
      FromInitial(start, calls, events, View(), kernel.calls);
      before, soFar := View(), kernel.calls;
      var stopped := StopAll();
      RanThen(start, calls, events, before, soFar, stopped, View(), kernel.calls);
      events := events + stopped;
      FromInitial(start, calls, events, View(), kernel.calls);
    }
  }

  /** A step taken after some time. */
  lemma Later(w: World, calls: seq<Call>, dt: nat, e: Event)
    requires Enabled(w.(clock := w.clock + dt), e)
    ensures Ran(w, calls, [Tick(dt)] + [e], Apply(w.(clock := w.clock + dt), e),
                calls + CallsOf(w.(clock := w.clock + dt), e))
    ensures CallsOf(w.(clock := w.clock + dt), e) == [] ==>
              Ran(w, calls, [Tick(dt)] + [e], Apply(w.(clock := w.clock + dt), e), calls)
  {
    hide Ran;
    var mid := w.(clock := w.clock + dt);
    RanOne(w, calls, Tick(dt));
    RanOne(mid, calls, e);
    RanThen(w, calls, [Tick(dt)], mid, calls, [e], Apply(mid, e), calls + CallsOf(mid, e));
    assert calls + [] == calls;
  }

  lemma RanLeads(w: World, before: seq<Call>, events: seq<Event>, w': World, after: seq<Call>)
    requires Ran(w, before, events, w', after)
    ensures Leads(w, events, w')
  {
  }

  function ReapsOf(batch: seq<(nat, ExitReason)>): (events: seq<Event>)
    ensures |events| == |batch| && forall i :: 0 <= i < |batch| ==> events[i] == Reap(batch[i].0, batch[i].1)
  {
    seq(|batch|, i requires 0 <= i < |batch| => Reap(batch[i].0, batch[i].1))
  }

  function Flatten(turns: seq<seq<Event>>): seq<Event> {
    if turns == [] then [] else Flatten(turns[..|turns| - 1]) + turns[|turns| - 1]
  }

  /** Children have been reaped until waitpid had none to report, or at least `most` of them. */
  predicate ReapedOut(events: seq<Event>, most: nat) {
    Quiet in events || ReapsIn(events) >= most
  }

  lemma {:induction false} BatchIsReaped(batch: seq<(nat, ExitReason)>, most: nat, rest: seq<Event>)
    requires |batch| <= most
    ensures ReapedOut(ReapsOf(batch) + (if |batch| == most then [] else [Quiet]) + rest, most)
  {
    var tail := (if |batch| == most then [] else [Quiet]) + rest;
    AllReaps(ReapsOf(batch));
    ReapsConcat(ReapsOf(batch), tail);
    assert ReapsOf(batch) + (if |batch| == most then [] else [Quiet]) + rest == ReapsOf(batch) + tail;
    if |batch| < most { assert tail[0] == Quiet; }
  }

  lemma {:induction false} AllReaps(events: seq<Event>)
    requires forall i :: 0 <= i < |events| ==> events[i].Reap?
    ensures ReapsIn(events) == |events|
  {
    if events != [] { AllReaps(events[1..]); }
  }

  /**
   * One turn of the main loop: exited children have been reaped and handled, what was overdue when
   * it began has been started again or given up, and at least half a second has passed.
   */
  ghost predicate IsTurn(w: World, events: seq<Event>, w': World, most: nat) {
    && Leads(w, events, w') && ReapedOut(events, most) && w'.reaped == []
    && w'.clock >= w.clock + 500_000_000
    && w'.services.Keys == w.services.Keys == w.hist.Keys == w'.hist.Keys
    && (forall n :: n in w.services ==> Persists(w.services[n], w.hist[n], w'.services[n], w'.hist[n]))
    && forall n :: n in w.services && Overdue(w.services[n], w.clock) ==>
         Attended(w'.services[n], w'.hist[n], w.hist[n].starts)
  }

  /** How many exits of children the run has collected. */
  function ReapsIn(events: seq<Event>): nat {
    if events == [] then 0 else (if events[0].Reap? then 1 else 0) + ReapsIn(events[1..])
  }

  lemma {:induction false} ReapsConcat(a: seq<Event>, b: seq<Event>)
    ensures ReapsIn(a + b) == ReapsIn(a) + ReapsIn(b)
  {
    if a == [] {
      assert a + b == b;
    } else {
      assert (a + b)[1..] == a[1..] + b;
      ReapsConcat(a[1..], b);
    }
  }

  predicate Waiting(svc: ManagedService, now: nat) {
    svc.state == WaitingRestart && svc.nextRestart.Some? && svc.nextRestart.value <= now
  }

  /** Waiting, with its restart time past. */
  predicate Overdue(svc: ManagedService, now: nat) {
    svc.pid.None? && svc.state == WaitingRestart && svc.nextRestart.Some? && svc.nextRestart.value <= now
  }

  /** Started once more, or given up because that failed, as it cannot where spawning is sure. */
  predicate Retried(svc: ManagedService, h: History, svc': ManagedService, h': History, spawns: bool) {
    || (svc'.pid.Some? && svc'.lastStart.Some? && h'.starts == h.starts + 1
        && svc' == svc.(pid := svc'.pid, state := Running, lastStart := svc'.lastStart))
    || (!spawns && svc' == svc.(state := Failed) && h' == h)
  }

  /**
   * A pass of restarts at `now` with `ready` still to come: of the services due, the others have
   * been retried; everything else is as it was.
   */
  ghost predicate Passed(services: map<string, ManagedService>, hist: map<string, History>, now: nat, ready: set<string>,
                         services': map<string, ManagedService>, hist': map<string, History>, spawns: bool) {
    && services'.Keys == services.Keys == hist.Keys == hist'.Keys
    && (forall n :: n in ready ==> n in services && Waiting(services[n], now))
    && forall n :: n in services ==>
         if Waiting(services[n], now) && n !in ready then Retried(services[n], hist[n], services'[n], hist'[n], spawns)
         else services'[n] == services[n] && hist'[n] == hist[n]
  }

  lemma PassBegins(services: map<string, ManagedService>, hist: map<string, History>, now: nat, spawns: bool)
    requires services.Keys == hist.Keys
    ensures Passed(services, hist, now, (set n | n in services && Due(services[n], now)), services, hist, spawns)
  {
  }

  lemma StillDue(services: map<string, ManagedService>, hist: map<string, History>, now: nat, ready: set<string>,
                 services': map<string, ManagedService>, hist': map<string, History>, name: string, spawns: bool)
    requires Passed(services, hist, now, ready, services', hist', spawns) && name in ready
    ensures name in services' && name in hist' && Due(services'[name], now)
  {
  }

  lemma PassGoesOn(services: map<string, ManagedService>, hist: map<string, History>, now: nat, ready: set<string>,
                   before: map<string, ManagedService>, histBefore: map<string, History>, name: string,
                   after: map<string, ManagedService>, histAfter: map<string, History>, spawns: bool)
    requires Passed(services, hist, now, ready, before, histBefore, spawns) && name in ready
    requires after.Keys == before.Keys && histAfter.Keys == histBefore.Keys
    requires name in before && Retried(before[name], histBefore[name], after[name], histAfter[name], spawns)
    requires forall n :: n in after && n in histAfter && n != name ==>
               after[n] == before[n] && histAfter[n] == histBefore[n]
    ensures Passed(services, hist, now, ready - {name}, after, histAfter, spawns)
  {
    hide Retried;
  }

  /** One turn of the main loop, for one service: handle the batch, then process restarts. */
  lemma TurnPersists(start: World, handled: World, now: nat,
                     services: map<string, ManagedService>, hist: map<string, History>, n: string, spawns: bool)
    requires n in start.services && n in start.hist && n in handled.services && n in handled.hist
    requires start.services[n].pid.None? ==>
               handled.services[n] == start.services[n] && handled.hist[n] == start.hist[n]
    requires handled.hist[n].starts == start.hist[n].starts
    requires start.clock <= now && Passed(handled.services, handled.hist, now, {}, services, hist, spawns)
    ensures n in services && n in hist
    ensures Persists(start.services[n], start.hist[n], services[n], hist[n])
    ensures Overdue(start.services[n], start.clock) ==> Attended(services[n], hist[n], start.hist[n].starts)
  {
  }

  predicate GivenUp(svc: ManagedService) {
    svc.state == Failed && svc.pid.None?
  }

  /** Started again since it had had `starts` starts, or given up. */
  predicate Attended(svc: ManagedService, h: History, starts: nat) {
    h.starts > starts || GivenUp(svc)
  }

  /** Starts only add up, and a service given up stays so. */
  predicate Persists(svc: ManagedService, h: History, svc': ManagedService, h': History) {
    h'.starts >= h.starts && (GivenUp(svc) ==> svc' == svc)
  }

  /** What a method may rely on after a run from an initial world. */
  lemma FromInitial(start: World, before: seq<Call>, events: seq<Event>, w: World, after: seq<Call>)
    requires Initial(start) && Ran(start, before, events, w, after)
    ensures Reachable(w) && w.services.Keys == w.hist.Keys
    ensures forall n :: n in w.order <==> n in w.services
    ensures w.phase == Stopping(|w.order|) ==> forall n :: n in w.services ==> w.services[n].pid.None?
  {
    ReachableInv(w);
    if w.phase == Stopping(|w.order|) {
      forall n | n in w.services ensures w.services[n].pid.None? { StopLeavesNoPid(w, n); }
    }
  }
}
