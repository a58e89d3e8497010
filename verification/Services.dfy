/** Service definitions and dependency resolution (cmd/nulld/src/service.rs). */
module Services {
  import opened Collections
  import opened Wrappers

  datatype RestartPolicy = Always | OnFailure | Never

  datatype ServiceDef = ServiceDef(
    name: string,
    binary: string,
    args: seq<string>,
    dependsOn: seq<string>,
    restart: RestartPolicy)

  datatype DepError =
    | MissingDependency(service: string, dependency: string)
    | CycleDetected

  // ---------------------------------------------------------------- the dependency graph

  function NameList(services: seq<ServiceDef>): (names: seq<string>)
    ensures |names| == |services|
  {
    seq(|services|, i requires 0 <= i < |services| => services[i].name)
  }

  function Names(services: seq<ServiceDef>): set<string> {
    SetOf(NameList(services))
  }

  ghost predicate DistinctNames(services: seq<ServiceDef>) {
    NoDuplicates(NameList(services))
  }

  /** Some definition called `a` lists `b` in its depends_on. */
  ghost predicate DependsOn(services: seq<ServiceDef>, a: string, b: string) {
    exists i :: 0 <= i < |services| && services[i].name == a && b in services[i].dependsOn
  }

  /** Each element depends on the next one. */
  ghost predicate IsWalk(services: seq<ServiceDef>, walk: seq<string>) {
    forall i, j :: 0 <= i && j == i + 1 && j < |walk| ==> DependsOn(services, walk[i], walk[j])
  }

  /** A non-empty walk whose last element depends on the first. */
  ghost predicate IsCycle(services: seq<ServiceDef>, c: seq<string>) {
    c != [] && IsWalk(services, c) && DependsOn(services, c[|c| - 1], c[0])
  }

  ghost predicate HasCycle(services: seq<ServiceDef>) {
    exists c :: IsCycle(services, c)
  }

  /** Dependency `j` of service `i` names no service at all. */
  predicate MissingAt(services: seq<ServiceDef>, i: nat, j: nat)
    requires i < |services| && j < |services[i].dependsOn|
  {
    services[i].dependsOn[j] !in Names(services)
  }

  ghost predicate AllPresent(services: seq<ServiceDef>) {
    forall i, j :: 0 <= i < |services| && 0 <= j < |services[i].dependsOn| ==> !MissingAt(services, i, j)
  }

  /** The error names the first missing dependency in scan order. */
  ghost predicate IsFirstMissing(services: seq<ServiceDef>, e: DepError) {
    exists i, j :: 0 <= i < |services| && 0 <= j < |services[i].dependsOn|
      && MissingAt(services, i, j)
      && e == MissingDependency(services[i].name, services[i].dependsOn[j])
      && PresentBefore(services, i, j)
  }

  ghost predicate PresentBefore(services: seq<ServiceDef>, i: nat, j: nat) {
    forall k, l :: 0 <= k < |services| && 0 <= l < |services[k].dependsOn| && (k < i || (k == i && l < j))
      ==> !MissingAt(services, k, l)
  }

  /** A duplicate-free list of exactly the service names, dependencies strictly first. */
  ghost predicate IsStartOrder(services: seq<ServiceDef>, order: seq<string>) {
    && NoDuplicates(order)
    && (forall n :: n in order <==> n in Names(services))
    && DependenciesFirst(services, order)
  }

  ghost predicate DependenciesFirst(services: seq<ServiceDef>, order: seq<string>) {
    forall i, d :: 0 <= i < |order| && DependsOn(services, order[i], d) ==> d in order[..i]
  }

  // ---------------------------------------------------------------- edges and in-degrees

  datatype Edge = Edge(dependent: string, dependency: string)

  /** Every entry of every depends_on list, repetitions included, in scan order. */
  function Edges(services: seq<ServiceDef>): seq<Edge> {
    if services == [] then []
    else
      var last := services[|services| - 1];
      Edges(services[..|services| - 1]) + EdgesOf(last, |last.dependsOn|)
  }

  function EdgesOf(svc: ServiceDef, n: nat): seq<Edge>
    requires n <= |svc.dependsOn|
  {
    seq(n, j requires 0 <= j < n => Edge(svc.name, svc.dependsOn[j]))
  }

  /** How many entries of `n`'s depends_on are not in `done`. */
  function Pending(edges: seq<Edge>, done: set<string>, n: string): nat {
    if edges == [] then 0
    else
      var last := edges[|edges| - 1];
      Pending(edges[..|edges| - 1], done, n)
      + (if last.dependent == n && last.dependency !in done then 1 else 0)
  }

  /** The names to notify once `d` is done, one entry per depends_on occurrence. */
  function DependentsOf(edges: seq<Edge>, d: string): seq<string> {
    if edges == [] then []
    else
      var last := edges[|edges| - 1];
      DependentsOf(edges[..|edges| - 1], d) + (if last.dependency == d then [last.dependent] else [])
  }

  lemma EdgeStep(edges: seq<Edge>, e: Edge, done: set<string>, n: string, d: string)
    ensures Pending(edges + [e], done, n)
         == Pending(edges, done, n) + (if e.dependent == n && e.dependency !in done then 1 else 0)
    ensures DependentsOf(edges + [e], d)
         == DependentsOf(edges, d) + (if e.dependency == d then [e.dependent] else [])
  {
  }

  lemma {:induction false} EdgesAreDependencies(services: seq<ServiceDef>, a: string, b: string)
    ensures Edge(a, b) in Edges(services) <==> DependsOn(services, a, b)
  {
    if services != [] {
      var init, last := services[..|services| - 1], services[|services| - 1];
      EdgesAreDependencies(init, a, b);
      var es := EdgesOf(last, |last.dependsOn|);
      if last.name == a && b in last.dependsOn {
        var j :| 0 <= j < |last.dependsOn| && last.dependsOn[j] == b;
        assert es[j] == Edge(a, b);
        assert services[|services| - 1].name == a;
      }
      if DependsOn(services, a, b) {
        var i :| 0 <= i < |services| && services[i].name == a && b in services[i].dependsOn;
        if i < |init| { assert init[i] == services[i]; }
      }
      if DependsOn(init, a, b) {
        var i :| 0 <= i < |init| && init[i].name == a && b in init[i].dependsOn;
        assert services[i] == init[i];
      }
    }
  }

  /** A degree of zero means every dependency is done, and only that. */
  lemma {:induction false} PendingZero(edges: seq<Edge>, done: set<string>, n: string)
    ensures Pending(edges, done, n) == 0
       <==> forall e :: e in edges && e.dependent == n ==> e.dependency in done
  {
    if edges != [] {
      var init, last := edges[..|edges| - 1], edges[|edges| - 1];
      assert edges == init + [last];
      PendingZero(init, done, n);
    }
  }

  /** Finishing `d` lowers `n`'s degree by the number of times `n` is notified. */
  lemma {:induction false} PendingSplit(edges: seq<Edge>, done: set<string>, n: string, d: string)
    requires d !in done
    ensures Pending(edges, done, n)
         == Pending(edges, done + {d}, n) + multiset(DependentsOf(edges, d))[n]
  {
    if edges != [] {
      PendingSplit(edges[..|edges| - 1], done, n, d);
    }
  }

  lemma {:induction false} DependentsAreDependents(edges: seq<Edge>, d: string, n: string)
    ensures n in DependentsOf(edges, d) <==> Edge(n, d) in edges
  {
    if edges != [] {
      var init, last := edges[..|edges| - 1], edges[|edges| - 1];
      assert edges == init + [last];
      DependentsAreDependents(init, d, n);
    }
  }

  lemma EdgesExtend(services: seq<ServiceDef>, i: nat)
    requires i < |services|
    ensures Edges(services[..i + 1]) == Edges(services[..i]) + EdgesOf(services[i], |services[i].dependsOn|)
  {
    assert services[..i + 1][..i] == services[..i];
  }

  // ---------------------------------------------------------------- resolve_start_order

  /** The validation pass: the first dependency that names no service, if any. */
  method FindMissing(services: seq<ServiceDef>) returns (r: Option<DepError>)
    ensures r.None? <==> AllPresent(services)
    ensures r.Some? ==> IsFirstMissing(services, r.value)
  {
    var names := Names(services);
    for i := 0 to |services|
      invariant PresentBefore(services, i, 0)
    {
      var deps := services[i].dependsOn;
      for j := 0 to |deps|
        invariant PresentBefore(services, i, j)
      {
        if deps[j] !in names {
          assert MissingAt(services, i, j);
          return Some(MissingDependency(services[i].name, deps[j]));
        }
      }
    }
    return None;
  }

  ghost predicate DegreesCount(inDegree: map<string, nat>, edges: seq<Edge>, done: set<string>) {
    forall n :: n in inDegree ==> inDegree[n] == Pending(edges, done, n)
  }

  function Lookup(dependents: map<string, seq<string>>, d: string): seq<string> {
    if d in dependents then dependents[d] else []
  }

  /** The two maps describe exactly `edges`. */
  ghost predicate Counted(edges: seq<Edge>, inDegree: map<string, nat>, dependents: map<string, seq<string>>) {
    && DegreesCount(inDegree, edges, {})
    && (forall n :: n !in inDegree ==> Pending(edges, {}, n) == 0)
    && (forall d :: Lookup(dependents, d) == DependentsOf(edges, d))
  }

  lemma CountedStep(edges: seq<Edge>, e: Edge, inDegree: map<string, nat>, dependents: map<string, seq<string>>)
    requires Counted(edges, inDegree, dependents) && e.dependent in inDegree
    ensures Counted(edges + [e],
                    inDegree[e.dependent := inDegree[e.dependent] + 1],
                    dependents[e.dependency := Lookup(dependents, e.dependency) + [e.dependent]])
  {
    var inDegree' := inDegree[e.dependent := inDegree[e.dependent] + 1];
    var dependents' := dependents[e.dependency := Lookup(dependents, e.dependency) + [e.dependent]];
    forall n ensures (if n in inDegree' then inDegree'[n] else 0) == Pending(edges + [e], {}, n) {
      EdgeStep(edges, e, {}, n, "");
    }
    forall d ensures Lookup(dependents', d) == DependentsOf(edges + [e], d) {
      EdgeStep(edges, e, {}, "", d);
    }
  }

  /** One service's entry in the degree map and one push per dependency. */
  method CountService(ghost before: seq<Edge>, svc: ServiceDef,
                      inDegree0: map<string, nat>, dependents0: map<string, seq<string>>)
    returns (inDegree: map<string, nat>, dependents: map<string, seq<string>>)
    requires Counted(before, inDegree0, dependents0)
    ensures inDegree.Keys == inDegree0.Keys + {svc.name}
    ensures Counted(before + EdgesOf(svc, |svc.dependsOn|), inDegree, dependents)
  {
    hide Counted;
    inDegree, dependents := inDegree0, dependents0;
    if svc.name !in inDegree {
      CountedEntry(before, svc.name, inDegree, dependents);
      inDegree := inDegree[svc.name := 0];
    }
    assert before + EdgesOf(svc, 0) == before;
    for j := 0 to |svc.dependsOn|
      invariant inDegree.Keys == inDegree0.Keys + {svc.name}
      invariant Counted(before + EdgesOf(svc, j), inDegree, dependents)
    {
      var dep := svc.dependsOn[j];
      assert before + EdgesOf(svc, j + 1) == before + EdgesOf(svc, j) + [Edge(svc.name, dep)];
      CountedStep(before + EdgesOf(svc, j), Edge(svc.name, dep), inDegree, dependents);
      inDegree := inDegree[svc.name := inDegree[svc.name] + 1];
      dependents := dependents[dep := Lookup(dependents, dep) + [svc.name]];
    }
  }

  lemma CountedEntry(edges: seq<Edge>, n: string, inDegree: map<string, nat>, dependents: map<string, seq<string>>)
    requires Counted(edges, inDegree, dependents) && n !in inDegree
    ensures Counted(edges, inDegree[n := 0], dependents)
  {
  }

  /** The two maps the work loop runs on. */
  method CountEdges(services: seq<ServiceDef>)
    returns (inDegree: map<string, nat>, dependents: map<string, seq<string>>)
    ensures inDegree.Keys == Names(services)
    ensures Counted(Edges(services), inDegree, dependents)
  {
    inDegree, dependents := map[], map[];
    for i := 0 to |services|
      invariant inDegree.Keys == Names(services[..i])
      invariant Counted(Edges(services[..i]), inDegree, dependents)
    {
      inDegree, dependents := CountService(Edges(services[..i]), services[i], inDegree, dependents);
      EdgesExtend(services, i);
      assert NameList(services[..i + 1]) == NameList(services[..i]) + [services[i].name];
    }
    assert services[..|services|] == services;
  }

  /** The zero-degree names, in whatever order the hash map yields them. */
  method InitialQueue(inDegree: map<string, nat>) returns (queue: seq<string>)
    ensures NoDuplicates(queue)
    ensures forall n :: n in queue <==> n in inDegree && inDegree[n] == 0
  {
    queue := [];
    var names := Enumerate(inDegree.Keys);
    for i := 0 to |names|
      invariant NoDuplicates(queue)
      invariant forall n :: n in queue <==> n in names[..i] && inDegree[n] == 0
    {
      if inDegree[names[i]] == 0 { queue := queue + [names[i]]; }
    }
  }

  /** What holds whenever the work loop is about to pop, with `order` already popped. */
  ghost predicate KahnInvariant(edges: seq<Edge>, names: set<string>, inDegree: map<string, nat>,
                                order: seq<string>, queue: seq<string>)
  {
    && inDegree.Keys == names
    && NoDuplicates(order + queue)
    && DegreesCount(inDegree, edges, SetOf(order))
    && (forall n :: n in order + queue <==> n in names && inDegree[n] == 0)
    && DoneFirst(edges, order)
  }

  ghost predicate DoneFirst(edges: seq<Edge>, order: seq<string>) {
    forall i, e :: 0 <= i < |order| && e in edges && e.dependent == order[i] ==> e.dependency in order[..i]
  }

  /** Degrees while the dependents still in `todo` are being notified; `settled` was queued before. */
  ghost predicate Notifying(edges: seq<Edge>, names: set<string>, done: set<string>,
                            inDegree: map<string, nat>, todo: seq<string>, settled: seq<string>)
  {
    && inDegree.Keys == names
    && (forall n :: n in inDegree ==> inDegree[n] == Pending(edges, done, n) + multiset(todo)[n])
    && NoDuplicates(settled)
    && (forall n :: n in settled <==> n in names && inDegree[n] == 0)
  }

  /** Decrement each dependent once per occurrence; queue those that reach zero. */
  method Notify(ghost edges: seq<Edge>, ghost names: set<string>, ghost popped: seq<string>,
                inDegree0: map<string, nat>, todo: seq<string>, queue0: seq<string>)
    returns (inDegree: map<string, nat>, queue: seq<string>)
    requires forall n :: n in todo ==> n in names
    requires Notifying(edges, names, SetOf(popped), inDegree0, todo, popped + queue0)
    ensures Notifying(edges, names, SetOf(popped), inDegree, [], popped + queue)
  {
    hide Notifying;
    hide SetOf;
    inDegree, queue := inDegree0, queue0;
    assert todo[0..] == todo;
    for i := 0 to |todo|
      invariant Notifying(edges, names, SetOf(popped), inDegree, todo[i..], popped + queue)
    {
      var dep := todo[i];
      assert todo[i..] == [dep] + todo[i + 1..];
      NotifyStep(edges, names, SetOf(popped), inDegree, dep, todo[i + 1..], popped + queue);
      inDegree := inDegree[dep := inDegree[dep] - 1];
      if inDegree[dep] == 0 {
        assert popped + (queue + [dep]) == (popped + queue) + [dep];
        queue := queue + [dep];
      }
    }
  }

  lemma NotifyStep(edges: seq<Edge>, names: set<string>, done: set<string>,
                   inDegree: map<string, nat>, dep: string, todo: seq<string>, settled: seq<string>)
    requires Notifying(edges, names, done, inDegree, [dep] + todo, settled) && dep in names
    ensures dep in inDegree && inDegree[dep] > 0
    ensures Notifying(edges, names, done, inDegree[dep := inDegree[dep] - 1], todo,
                      if inDegree[dep] == 1 then settled + [dep] else settled)
  {
  }

  /** Pop the front of the queue and notify its dependents. */
  method PopAndNotify(ghost edges: seq<Edge>, ghost names: set<string>, ghost order: seq<string>,
                      inDegree0: map<string, nat>, dependents: map<string, seq<string>>, queue0: seq<string>)
    returns (inDegree: map<string, nat>, queue: seq<string>)
    requires queue0 != []
    requires KahnInvariant(edges, names, inDegree0, order, queue0)
    requires forall e :: e in edges ==> e.dependent in names
    requires forall d :: Lookup(dependents, d) == DependentsOf(edges, d)
    ensures KahnInvariant(edges, names, inDegree, order + [queue0[0]], queue)
  {
    var name := queue0[0];
    var deps := Lookup(dependents, name);
    PopStarts(edges, names, order, inDegree0, queue0);
    forall n | n in deps ensures n in names { DependentsAreDependents(edges, name, n); }
    inDegree, queue := Notify(edges, names, order + [name], inDegree0, deps, queue0[1..]);
  }

  /** Popping: the front has all its dependencies in `order`, and its notifications are now due. */
  lemma PopStarts(edges: seq<Edge>, names: set<string>, order: seq<string>, inDegree: map<string, nat>, queue: seq<string>)
    requires queue != [] && KahnInvariant(edges, names, inDegree, order, queue)
    ensures Notifying(edges, names, SetOf(order + [queue[0]]), inDegree,
                      DependentsOf(edges, queue[0]), (order + [queue[0]]) + queue[1..])
    ensures DoneFirst(edges, order + [queue[0]])
  {
    var name := queue[0];
    assert order + queue == (order + [name]) + queue[1..];
    assert (order + queue)[|order|] == name;
    forall k | 0 <= k < |order| ensures order[k] != name {
      assert (order + queue)[k] == order[k];
    }
    assert SetOf(order + [name]) == SetOf(order) + {name};
    forall n { PendingSplit(edges, SetOf(order), n, name); }
    PendingZero(edges, SetOf(order), name);
    forall i, e | 0 <= i < |order| + 1 && e in edges && e.dependent == (order + [name])[i]
      ensures e.dependency in (order + [name])[..i]
    {
      assert (order + [name])[..i] == order[..i];
      if i == |order| { assert order[..i] == order; }
    }
  }

  /**
   * resolve_start_order. On every input: a missing dependency is reported as the first one in
   * scan order; otherwise the result is an order exactly when names are distinct and the graph
   * has no cycle, and CycleDetected in all remaining cases.
   */
  method ResolveStartOrder(services: seq<ServiceDef>) returns (r: Result<seq<string>, DepError>)
    ensures r.Success? ==> IsStartOrder(services, r.value) && |r.value| == |services|
    ensures r.Success? <==> AllPresent(services) && DistinctNames(services) && !HasCycle(services)
    ensures r.Failure? && r.error.MissingDependency? ==> IsFirstMissing(services, r.error)
    ensures r == Failure(CycleDetected)
       <==> AllPresent(services) && (!DistinctNames(services) || HasCycle(services))
  {
    var missing := FindMissing(services);
    if missing.Some? { return Failure(missing.value); }

    var inDegree, dependents := CountEdges(services);
    var queue := InitialQueue(inDegree);
    var order: seq<string> := [];
    ghost var edges, names := Edges(services), Names(services);
    EdgesStayInside(services);
    assert SetOf(order) == {} && order + queue == queue;
    while queue != []
      invariant KahnInvariant(edges, names, inDegree, order, queue)
      decreases |names| - |order|
    {
      PoppedIsBounded(order + queue, names);
      var name := queue[0];
      inDegree, queue := PopAndNotify(edges, names, order, inDegree, dependents, queue);
      order := order + [name];
    }
    assert order + queue == order;
    DrainedQueue(services, inDegree, order);
    if |order| != |services| { return Failure(CycleDetected); }
    return Success(order);
  }

  /** resolve_stop_order: the start order reversed in place, failing exactly when it fails. */
  method ResolveStopOrder(services: seq<ServiceDef>) returns (r: Result<seq<string>, DepError>)
    ensures r.Success? <==> AllPresent(services) && DistinctNames(services) && !HasCycle(services)
    ensures r.Success? ==> exists order :: IsStartOrder(services, order) && r.value == Reverse(order)
    ensures r.Failure? && r.error.MissingDependency? ==> IsFirstMissing(services, r.error)
    ensures r == Failure(CycleDetected)
       <==> AllPresent(services) && (!DistinctNames(services) || HasCycle(services))
  {
    r := ResolveStartOrder(services);
    if r.Success? {
      ghost var order := r.value;
      assert IsStartOrder(services, order);
      r := Success(Reverse(r.value));
    }
  }

  function Reverse<T>(s: seq<T>): (r: seq<T>)
    ensures |r| == |s| && forall i :: 0 <= i < |s| ==> r[i] == s[|s| - 1 - i]
  {
    seq(|s|, i requires 0 <= i < |s| => s[|s| - 1 - i])
  }

  // ---------------------------------------------------------------- why the length test is right

  lemma EdgesStayInside(services: seq<ServiceDef>)
    ensures forall e :: e in Edges(services) ==> e.dependent in Names(services)
    ensures AllPresent(services) ==> forall e :: e in Edges(services) ==> e.dependency in Names(services)
  {
    forall e | e in Edges(services)
      ensures e.dependent in Names(services) && (AllPresent(services) ==> e.dependency in Names(services))
    {
      EdgesAreDependencies(services, e.dependent, e.dependency);
      var i :| 0 <= i < |services| && services[i].name == e.dependent && e.dependency in services[i].dependsOn;
      assert NameList(services)[i] == e.dependent;
      var j :| 0 <= j < |services[i].dependsOn| && services[i].dependsOn[j] == e.dependency;
      assert AllPresent(services) ==> !MissingAt(services, i, j);
    }
  }

  lemma SubsetSize<T>(a: set<T>, b: set<T>)
    requires a <= b
    ensures |a| <= |b|
    ensures |a| == |b| ==> a == b
  {
    var rest := b - a;
    assert b == a + rest;
    assert |b| == |a| + |rest|;
  }

  lemma PoppedIsBounded(popped: seq<string>, names: set<string>)
    requires NoDuplicates(popped) && forall n :: n in popped ==> n in names
    ensures |popped| <= |names|
  {
    DistinctBySize(popped);
    SubsetSize(SetOf(popped), names);
  }

  /** There are as many distinct elements as positions exactly when nothing is repeated. */
  lemma {:induction false} DistinctBySize<T>(s: seq<T>)
    ensures |SetOf(s)| <= |s|
    ensures |SetOf(s)| == |s| <==> NoDuplicates(s)
  {
    if s != [] {
      var init, last := s[..|s| - 1], s[|s| - 1];
      DistinctBySize(init);
      assert SetOf(s) == SetOf(init) + {last} by { assert s == init + [last]; }
      if last in init {
        assert SetOf(s) == SetOf(init);
      }
    }
  }

  /** What an empty queue says about the graph. */
  lemma DrainedQueue(services: seq<ServiceDef>, inDegree: map<string, nat>, order: seq<string>)
    requires AllPresent(services)
    requires KahnInvariant(Edges(services), Names(services), inDegree, order, [])
    ensures |order| == |services| ==> IsStartOrder(services, order)
    ensures |order| == |services| <==> DistinctNames(services) && !HasCycle(services)
  {
    var names := Names(services);
    assert order + [] == order;
    DistinctBySize(order);
    SubsetSize(SetOf(order), names);
    DistinctBySize(NameList(services));
    if SetOf(order) == names {
      OrderIsStartOrder(services, order);
      OrderExcludesCycles(services, order);
    } else {
      StuckMeansCycle(services, inDegree, order);
    }
  }

  lemma StuckMeansCycle(services: seq<ServiceDef>, inDegree: map<string, nat>, order: seq<string>)
    requires AllPresent(services)
    requires KahnInvariant(Edges(services), Names(services), inDegree, order, [])
    requires exists u :: u in Names(services) && u !in SetOf(order)
    ensures HasCycle(services)
  {
    var left := Names(services) - SetOf(order);
    var u :| u in Names(services) && u !in SetOf(order);
    forall n | n in left ensures Stuck(services, left, n) {
      StuckHasStuckDependency(services, inDegree, order, n);
    }
    FindCycle(services, left, [u]);
  }

  ghost predicate Stuck(services: seq<ServiceDef>, left: set<string>, n: string) {
    exists d :: d in left && DependsOn(services, n, d)
  }

  lemma OrderIsStartOrder(services: seq<ServiceDef>, order: seq<string>)
    requires NoDuplicates(order) && SetOf(order) == Names(services)
    requires DoneFirst(Edges(services), order)
    ensures IsStartOrder(services, order)
  {
    forall n ensures n in order <==> n in Names(services) { assert n in order <==> n in SetOf(order); }
    forall i, d | 0 <= i < |order| && DependsOn(services, order[i], d) ensures d in order[..i] {
      EdgesAreDependencies(services, order[i], d);
      assert Edge(order[i], d) in Edges(services);
    }
  }

  /** A name left with a positive degree still waits for a name that was never popped. */
  lemma StuckHasStuckDependency(services: seq<ServiceDef>, inDegree: map<string, nat>, order: seq<string>, n: string)
    requires AllPresent(services)
    requires KahnInvariant(Edges(services), Names(services), inDegree, order, [])
    requires n in Names(services) && n !in order
    ensures Stuck(services, Names(services) - SetOf(order), n)
  {
    var edges := Edges(services);
    assert n !in order + [];
    PendingZero(edges, SetOf(order), n);
    var e :| e in edges && e.dependent == n && e.dependency !in SetOf(order);
    EdgesStayInside(services);
    EdgesAreDependencies(services, n, e.dependency);
    assert e == Edge(n, e.dependency);
  }

  lemma ClosesCycle(services: seq<ServiceDef>, walk: seq<string>, next: string)
    requires next in walk && DependsOn(services, walk[|walk| - 1], next)
    requires IsWalk(services, walk)
    ensures HasCycle(services)
  {
    var k :| 0 <= k < |walk| && walk[k] == next;
    var c := walk[k..];
    assert IsCycle(services, c);
  }

  /** Following stuck dependencies from `walk` must run into the walk itself. */
  lemma {:induction false} FindCycle(services: seq<ServiceDef>, left: set<string>, walk: seq<string>)
    requires forall n {:trigger Stuck(services, left, n)} :: n in left ==> Stuck(services, left, n)
    requires walk != [] && NoDuplicates(walk) && forall n :: n in walk ==> n in left
    requires IsWalk(services, walk)
    ensures HasCycle(services)
    decreases left - SetOf(walk)
  {
    var last := walk[|walk| - 1];
    assert Stuck(services, left, last);
    var next :| next in left && DependsOn(services, last, next);
    if next in walk {
      ClosesCycle(services, walk, next);
    } else {
      ghost var longer := walk + [next];
      assert left - SetOf(longer) < left - SetOf(walk) by {
        assert next in left - SetOf(walk) && next in longer;
        assert forall n :: n in walk ==> n in longer;
      }
      FindCycle(services, left, longer);
    }
  }

  function FirstPosition(order: seq<string>, n: string): (p: nat)
    requires n in order
    ensures p < |order| && order[p] == n && forall i :: 0 <= i < p ==> order[i] != n
  {
    if order[0] == n then 0 else 1 + FirstPosition(order[1..], n)
  }

  lemma DependencyComesEarlier(services: seq<ServiceDef>, order: seq<string>, a: string, b: string)
    requires IsStartOrder(services, order) && DependsOn(services, a, b) && a in order
    ensures b in order && FirstPosition(order, b) < FirstPosition(order, a)
  {
  }

  /** Along a cycle positions in a start order would have to descend for ever. */
  lemma OrderExcludesCycles(services: seq<ServiceDef>, order: seq<string>)
    requires IsStartOrder(services, order)
    ensures !HasCycle(services)
  {
    forall c ensures !IsCycle(services, c) {
      if IsCycle(services, c) {
        var first, last := c[0], c[|c| - 1];
        CycleDescends(services, order, c, |c| - 1);
        DependencyComesEarlier(services, order, last, first);
      }
    }
  }

  lemma {:induction false} CycleDescends(services: seq<ServiceDef>, order: seq<string>, c: seq<string>, k: nat)
    requires IsStartOrder(services, order) && IsCycle(services, c) && k < |c|
    ensures c[k] in order && c[0] in order
    ensures FirstPosition(order, c[k]) + k <= FirstPosition(order, c[0])
  {
    if k == 0 {
      var next := if |c| == 1 then c[0] else c[1];
      assert DependsOn(services, c[0], next);
      var i :| 0 <= i < |services| && services[i].name == c[0];
      assert NameList(services)[i] == c[0];
    } else {
      CycleDescends(services, order, c, k - 1);
      assert DependsOn(services, c[k - 1], c[k]);
      DependencyComesEarlier(services, order, c[k - 1], c[k]);
    }
  }
}
