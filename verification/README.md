# nullbox: verified models of its core

A Dafny model of the parts of nullbox that hold state, loop or translate, with proofs about every
input and every run.

- **nulld, dependencies** (`Services.dfy`). `resolve_start_order`, Kahn's algorithm over a degree
  map, a dependents map and a queue, with the graph theory that makes its final length test right.
- **nulld, supervisor** (`NulldModel.dfy`, `NulldTheorems.dfy`, `Nulld.dfy`). The supervisor and the
  kernel's process table as one step system; invariants over all runs; and the `Supervisor` object
  itself, whose methods each perform a run of that system.
- **cage, seccomp** (`Seccomp.dfy`). The classic-BPF assembler, an interpreter for its output, and
  the verdict of every assembled filter on every system call.
- **egress** (`NetText.dfy`, `Blocklist.dfy`, `Firewall.dfy`, `NftText.dfy`, `NftParser.dfy`,
  `Egress.dfy`). The blocked ranges, the ruleset as rules and as text, a parser that reads the text
  back, and the daemon that keeps a rules file in step with its agent map.
- **cage, lifecycle** (`CageModel.dfy`, `CageTheorems.dfy`, `Cage.dfy`). Starts, stops, deployments,
  exits, health sweeps and restarts interleaved, with egress as the other half of the protocol; and
  the `VmManager` and the daemon loop as objects.
- **encodings** (`Base64.dfy`, `Like.dfy`, `Ctxgraph.dfy`). The web console's base64, the LIKE
  patterns of prefix queries, and the content-addressed store with its NUL-framed hash input.

`Wrappers.dfy` and `Collections.dfy` hold the result types and iteration over hash sets and maps.

## How to read it

A step system is a `World`, an `Event` datatype, `Enabled` and `Apply`. `Leads(w, events, w')` says
that `events` is a possible run from `w` and ends in `w'`. The environment (spawning, exits, probe
answers, DNS, lost notifications, failed writes, the clock) appears as event arguments that are
constrained only by what the operating system guarantees: a new pid is not that of an unreaped
child, and the clock never goes back. `CallsOf` gives the system calls and messages a step makes, with
their answers, and `Ran` is a run together with exactly its calls.

The environment of the classes, `Kernel` and `Host`, records every call made to it. Each method
returns, as ghost results, the events it went through and promises `Did`: state and record have changed
as that run says. What the theorems say about runs therefore holds of the objects. The way to egress is a
`Link`, on which messages may or may not be sure to arrive and to be written; `Reaches` asks this of the
notifications a step actually sends. `Host.spawns` and `Kernel.spawns` say whether spawning is sure to
succeed. `NulldModel.History`, `CageModel.Incarnation` and the ghost fields of the classes record what the
programs do not store.

`dafny verify dfyconfig.toml` checks the project.

## What the code does, where its documentation or a reader may expect otherwise

- `resolve_start_order` documents its error as a dependency cycle. It also answers CycleDetected when
  two services share a name, even if no cycle exists; `ResolveStartOrder` states the exact condition.
- A service whose restart cannot be spawned is Failed for good (cmd/nulld/src/supervisor.rs:114-124),
  see `FailedIsFinal`.
- A health restart that fails leaves the agent registered with egress although it no longer runs
  (pkg/cage/src/main.rs:171-190). Within one life of both daemons this is the only way:
  `RegisteredMeansRunning` proves that registered agents are running throughout a run if and only if
  no health restart in it fails, and `RestartMayFail` that one can. When nulld restarts egress its map
  is forgotten while VMs run, and when it restarts cage old registrations stay; runs here do not
  cross such a restart.
- A VM killed by a signal is not restarted (pkg/cage/src/main.rs:268-279), see `ExitOutcome`.
- The prefix escaping of `query_by_prefix` does not escape backslash, and SQLite's LIKE reads texts
  only up to a NUL and takes U+FFFE and U+FFFF for U+FFFD. `PrefixQueryMeaning` proves that a prefix
  query selects the keys that begin with the prefix if and only if the prefix has none of these.
- The hash framing separates agent id, key and value if and only if neither id nor key contains a NUL
  (`FramingMeaning`). A write reads back in every run if and only if that holds and its value survives
  the JSON text (`ReadBackMeaning`), which serde_json does not promise for all floating-point numbers.
- A rules write that fails leaves the agent map ahead of the file. `FileIsFromLatestWrite` says which map
  the file stands for.

## Model

| member | source | states |
|---|---|---|
| `Services.ResolveStartOrder` | cmd/nulld/src/service.rs:25-83 | on every input: Ok exactly when all dependencies exist, names are distinct and the graph is acyclic, and then a duplicate-free list of all names with dependencies strictly first; otherwise the first missing dependency in scan order, or CycleDetected exactly in the remaining cases |
| `Services.ResolveStopOrder` | cmd/nulld/src/service.rs:86-90 | succeeds and fails exactly as the start order does, and yields the reverse of a valid one |
| `Services.FindMissing` | cmd/nulld/src/service.rs:28-38 | finds nothing exactly when every dependency names a service; otherwise the first in scan order |
| `Services.CountEdges` | cmd/nulld/src/service.rs:41-53 | the degree map counts depends_on entries, repetitions included, and the dependents map lists each name once per entry |
| `Services.InitialQueue` | cmd/nulld/src/service.rs:55-59 | each zero-degree name once, and no other |
| `Services.Notify` | cmd/nulld/src/service.rs:66-74 | decrements never underflow even with repeated entries; a name is queued once, exactly when its last entry is done |
| `Services.PopAndNotify` | cmd/nulld/src/service.rs:63-76 | one turn of the work loop keeps: degree = entries not yet popped, queue and order free of repetitions, popped names have all dependencies before them |
| `Services.PendingZero` | cmd/nulld/src/service.rs:70 | a degree of zero means every dependency has been popped, and only that |
| `Services.PendingSplit` | cmd/nulld/src/service.rs:67-69 | popping a name lowers each degree by exactly the number of notifications sent |
| `Services.EdgesAreDependencies` | cmd/nulld/src/service.rs:44-53 | the collected entries are exactly the dependency relation |
| `Services.DrainedQueue` | cmd/nulld/src/service.rs:78-82 | the length test: once the queue is dry, lengths agree exactly when names are distinct and there is no cycle |
| `Services.StuckMeansCycle` | cmd/nulld/src/service.rs:78-80 | if some name was never popped the graph has a cycle |
| `Services.StuckHasStuckDependency` | cmd/nulld/src/service.rs:63-76 | every unpopped name depends on an unpopped name |
| `Services.OrderExcludesCycles` | cmd/nulld/src/service.rs:22-24 | a dependency order and a cycle cannot both exist |
| `NulldModel.BackoffTable` | cmd/nulld/src/supervisor.rs:306-311 | backoff is 1, 2, 4, 8, 16 and from then on 30 seconds |
| `NulldModel.AfterExitMeaning` | cmd/nulld/src/supervisor.rs:169-202 | the exit transition, case by case: restarted exactly under Always, or under OnFailure after a signal or a code other than 0; the count, reset after a run of more than 300 s; the delay |
| `NulldTheorems.HandleExitMeaning` | cmd/nulld/src/supervisor.rs:157-204 | a handled exit does this to the service that held the pid, and nothing to any other |
| `NulldModel.SlackBounds` | cmd/nulld/src/supervisor.rs:306-311 | all backoffs together fall short of 30 s each by at most 119 s, by exactly that from five restarts on |
| `NulldModel.ExitKeepsServiceInv` | cmd/nulld/src/supervisor.rs:169-202 | an exit, with or without the reset after 300 s, keeps state, pid, policy and restart budget of a service |
| `NulldModel.StartKeepsServiceInv` | cmd/nulld/src/supervisor.rs:104-108 | a first start or a due restart keeps them |
| `NulldTheorems.StepKeepsInv` | cmd/nulld/src/supervisor.rs:76-288 | every step of supervisor or environment keeps the whole invariant |
| `NulldTheorems.RunKeepsInv` | cmd/nulld/src/supervisor.rs:134-153 | so does every run |
| `NulldTheorems.RestartBound` | cmd/nulld/src/supervisor.rs:182-191 | amortised bound: 30 R <= T + 119 for R restarts within T seconds of the first start, for every service in every reachable state |
| `NulldTheorems.RestartBoundIsTight` | cmd/nulld/src/supervisor.rs:182-191 | for every R of 5 or more some run meets the bound with equality |
| `NulldTheorems.CounterFits` | cmd/nulld/src/supervisor.rs:191 | the u32 restart counter cannot overflow before about 4,000 years have passed since the first start |
| `NulldTheorems.PidSafety` | cmd/nulld/src/supervisor.rs:92-126 | a service has a pid exactly while Running; pids are distinct, and between batches each is an unreaped child, the service's own |
| `NulldTheorems.ExitIsTheOwners` | cmd/nulld/src/signal.rs:57-78 | although a whole batch is reaped before it is handled, the service found under a reaped pid is the one whose process it was, and none is found for an orphan |
| `NulldTheorems.PolicySafety` | cmd/nulld/src/supervisor.rs:172-179 | WaitingRestart has a restart time; a Never service starts at most once, an OnFailure service at most once more than its failing exits |
| `NulldTheorems.FailedIsFinal` | cmd/nulld/src/supervisor.rs:114-124 | Failed is never left, and the service is never started again |
| `NulldTheorems.StartedSetIsClosed` | cmd/nulld/src/supervisor.rs:77-89 | at every point, also after start_all gave up, a started service has had all its transitive dependencies started |
| `NulldTheorems.DependentsStoppedFirst` | cmd/nulld/src/supervisor.rs:244-288 | a service is signalled only when none of its transitive dependents holds a pid |
| `NulldTheorems.StopLeavesNoPid` | cmd/nulld/src/supervisor.rs:244-288 | after stop_all no service holds a pid |
| `NulldTheorems.PathDescends` | cmd/nulld/src/service.rs:85-90 | along dependency paths start positions strictly descend |
| `Nulld.Supervisor.constructor` | cmd/nulld/src/supervisor.rs:53-74 | each name defined is there, not started, with the last of its definitions, and no other; what `Session` and `StartAll` ask for |
| `Nulld.Supervisor.StartAll` | cmd/nulld/src/supervisor.rs:77-89 | a dependency error exactly when no order exists, with nothing spawned; otherwise a run, with exactly its calls, that starts along an order and ends serving, or aborted at the service whose spawn failed, which happens only where spawning can fail |
| `Nulld.Supervisor.StartService` | cmd/nulld/src/supervisor.rs:92-126 | the whole new state on success, on a failed spawn and on an unknown name; a run of the step system; where spawning is sure, every known service comes up |
| `Nulld.Supervisor.ReapChildren` | cmd/nulld/src/signal.rs:57-78 | one reaping step per exit collected, with the reason waitpid gave, until it has none to report or as many as allowed; touches no service |
| `Nulld.Supervisor.HandleChildExit` | cmd/nulld/src/supervisor.rs:157-204 | the oldest exit of the batch: the service holding the pid ends WaitingRestart with its count and restart time, or Failed, case by case; no other changes |
| `Nulld.Supervisor.FindByPid` | cmd/nulld/src/supervisor.rs:158-162 | a service holding the pid, or none when none does |
| `Nulld.Supervisor.ProcessRestarts` | cmd/nulld/src/supervisor.rs:207-226 | every service due when the clock was read is started once more or, only where spawning can fail, given up; no other is touched |
| `Nulld.Supervisor.RunUntilShutdown` | cmd/nulld/src/supervisor.rs:129-154 | a sequence of `polls` turns, each as described for `Turn`, which together are a run with exactly its calls |
| `Nulld.Supervisor.Turn` | cmd/nulld/src/supervisor.rs:134-153 | one turn: children reaped until waitpid has none to report or as many as allowed, all of them handled, overdue services started again or given up, at least half a second gone; starts only add up and a service given up stays so |
| `Nulld.Supervisor.HandleBatch` | cmd/nulld/src/supervisor.rs:141-144 | the whole batch is handled in order; services without a pid are untouched and none is started |
| `Nulld.Supervisor.StopService` | cmd/nulld/src/supervisor.rs:249-286 | one turn of stop_all: pid cleared and state Stopped; the process was sent SIGTERM and is gone, or after more than five seconds was sent SIGKILL too and is left unreaped |
| `Nulld.Supervisor.StopAll` | cmd/nulld/src/supervisor.rs:244-288 | a run that deals with the whole order in reverse, with exactly its calls: each live process is sent SIGTERM and is collected or sent SIGKILL |
| `Nulld.Supervisor.Session` | cmd/nulld/src/main.rs:69-84 | start, serve, stop: a run from an initial world with exactly its calls; when it succeeds no service holds a pid |
| `Seccomp.AssembleBpf` | pkg/cage/src/seccomp.rs:234-269 | refuses exactly profiles of more than 255 numbers; any other filter is accepted (jumps forward and in range) and on all data returns 0x7fff0000 (ALLOW) for the numbers of the profile, and for all others 0x80000000 (KILL_PROCESS) or 0x7ffc0000 (LOG) as asked |
| `Seccomp.FilterVerdict` | pkg/cage/src/seccomp.rs:248-266 | from the i-th test on the program decides membership among the remaining numbers |
| `Seccomp.FilterAccepted` | pkg/cage/src/seccomp.rs:250-255 | every jump of a program for up to 255 numbers lands inside it, so no u8 offset has wrapped |
| `Seccomp.AcceptedNeverFaults` | pkg/cage/src/seccomp.rs:225-233 | an accepted program halts with an action on any data |
| `Seccomp.CastMembers` | pkg/cage/src/seccomp.rs:235 | the cast list holds exactly the truncations of the profile's numbers |
| `Seccomp.BuildProfile` | pkg/cage/src/seccomp.rs:209-221 | the profile holds exactly the base, shell and network numbers that were granted, and fits one filter |
| `Seccomp.GroupsAreDisjoint` | pkg/cage/src/seccomp.rs:84-204 | the three groups share no number |
| `Seccomp.BaseNumbers` | pkg/cage/src/seccomp.rs:84-177 | which numbers the base group holds, exactly |
| `Seccomp.OptionalGroups` | pkg/cage/src/seccomp.rs:180-204 | which numbers the network and shell groups hold, exactly |
| `Seccomp.CapabilitiesDecide` | pkg/cage/src/seccomp.rs:209-221 | a shell number is granted exactly by the shell capability, a network number exactly by a non-empty allow list, a base number always |
| `Seccomp.FilterForManifest` | pkg/cage/src/seccomp.rs:209-269 | every manifest yields an accepted filter that allows exactly the base numbers, the network numbers if the allow list is non-empty and the shell numbers if shell is granted |
| `Blocklist.OctetTestIsTheTables` | pkg/egress/src/blocklist.rs:31-64 | for every IPv4 address the octet test agrees with prefix matching (section 3.1 of RFC 4632) on the three tables; every IPv6 address is blocked |
| `Blocklist.TablesRead` | pkg/egress/src/blocklist.rs:8-26 | what the entries of the three tables read as |
| `Blocklist.PrefixByOctets` | pkg/egress/src/blocklist.rs:35-60 | prefix matching for each table entry, in octets |
| `Firewall.FirewallMeaning` | pkg/egress/src/firewall.rs:50-111 | first match, then the chain's policy: an outbound packet is accepted exactly when loopback, established, DNS, or to an IPv4 address outside every blocked prefix that some agent holds |
| `Firewall.InputMeaning` | pkg/egress/src/firewall.rs:113-118 | an inbound packet is accepted exactly when loopback or established |
| `Firewall.DropsMeaning` | pkg/egress/src/firewall.rs:68-90 | on IPv4 the drop rules catch exactly the addresses `is_blocked` filters |
| `Firewall.AgentRulesMeaning` | pkg/egress/src/firewall.rs:93-107 | the agent rules accept exactly the held IPv4 addresses |
| `Firewall.OrderDoesNotMatter` | pkg/egress/src/main.rs:211-217 | the verdict depends on which addresses are held, not on iteration order |
| `Firewall.NoAllowRuleIsShadowed` | pkg/egress/src/main.rs:136-138 | an address that passed the filter is accepted, whatever drops precede its rule |
| `NftText.GenerateTsiRuleset` | pkg/egress/src/firewall.rs:44-123 | the text appended piece by piece is the text of the intended layout |
| `NftText.PushDrops` | pkg/egress/src/firewall.rs:69-90 | the loops over CIDR strings emit the intended drop rules, the family chosen by the colon test |
| `NftText.PushAgent` | pkg/egress/src/firewall.rs:98-105 | one agent's remark, rules and blank line |
| `NetText.Ip4RoundTrip` | pkg/egress/src/firewall.rs:100-103 | dotted-quad printing reads back, for all IPv4 addresses |
| `NetText.Cidr4RoundTrip` | pkg/egress/src/firewall.rs:69-82 | so do printed prefixes |
| `NftParser.LexLine` | pkg/egress/src/firewall.rs:47-120 | each emitted line splits back into its tokens, remarks into none |
| `NftParser.RuleRoundTrip` | pkg/egress/src/firewall.rs:56-110 | the tokens of a rule parse back to the rule |
| `NftParser.RunLayout` | pkg/egress/src/firewall.rs:47-120 | the parser, which spells out the keywords it expects, accepts the whole layout, chain by chain |
| `NftParser.RenderingRoundTrip` | pkg/egress/src/firewall.rs:44-123 | for all agents with names of letters, digits, hyphen and underscore and IPv4 addresses the emitted text parses to exactly the intended chains: hooks, policies and rules in order |
| `Egress.EgressDaemon.constructor` | pkg/egress/src/main.rs:44-48 | the daemon begins with an empty map and its ruleset on file |
| `Egress.EgressDaemon.RegenerateAndApply` | pkg/egress/src/main.rs:208-227 | on success the file is the ruleset of the map; on failure it stays |
| `Egress.EgressDaemon.HandleAddAgent` | pkg/egress/src/main.rs:111-163 | the answer and the new state for bad names and failed writes too; of what was resolved exactly the IPv4 addresses outside every blocked prefix are stored |
| `Egress.EgressDaemon.HandleRemoveAgent` | pkg/egress/src/main.rs:165-190 | the answer, the new map and the file, for unknown agents too |
| `Egress.EgressDaemon.Serve` | pkg/egress/src/main.rs:60-69 | after any run of requests map and file stand for the log of all requests |
| `Egress.FileIsFromLatestWrite` | pkg/egress/src/main.rs:142-162 | after any run the file stands for the agent map as it was at the latest successful write |
| `Egress.MapAfterRun` | pkg/egress/src/main.rs:111-190 | after any run an agent is in the map exactly when the last request about it added it, and it then has that request's domains and exactly the IPv4 addresses outside every blocked prefix resolved for it |
| `Egress.FileMeaning` | pkg/egress/src/main.rs:208-227 | read back as text, the file lets out exactly loopback, established, DNS and the held addresses, in whatever order it was printed, and lets in exactly loopback and established |
| `Egress.FileAfterRun` | pkg/egress/src/main.rs:41-227 | after any run of requests with safe names, what the file lets out and in, in terms of the requests alone |
| `Egress.RemovalRevokes` | pkg/egress/src/main.rs:165-190 | a removal that is written revokes exactly the addresses no other agent holds, and grants nothing, whether or not the file was in step before |
| `Egress.DifferentAgentsCommute` | pkg/egress/src/main.rs:111-190 | requests about different agents commute on the map, and when written on the file too, even after a failed write |
| `Egress.CommutingFilesAgree` | pkg/egress/src/main.rs:111-227 | the two files give the same verdict on every packet, even after a failed write |
| `Egress.RunsAreClean` | pkg/egress/src/main.rs:136-148 | in every run no blocked, hence no IPv6, address is ever stored |
| `Egress.RunsKeepNamesSafe` | pkg/cage/src/manifest.rs:182 | while clients send names that obey the manifest rule, only such names are stored |
| `CageTheorems.IncarnationSafety` | pkg/cage/src/vm.rs:128-174 | in every run tracked pids are distinct unreaped children and tracked names are known manifests, filed under their own names |
| `CageTheorems.RunKeepsSafety` | pkg/cage/src/main.rs:164-206 | every run keeps the incarnation invariant: one process per incarnation, each tracked pid the current one's |
| `CageTheorems.ExitRemovesOnlyItsOwn` | pkg/cage/src/vm.rs:158-174 | a reaped exit is attributed to an agent exactly when it is that agent's current incarnation, so a late exit never removes a newer VM |
| `CageTheorems.ExitOutcome` | pkg/cage/src/main.rs:219-283 | VMs of other incarnations are untouched; the one that exited runs again exactly after returning a code other than 0 with a successful spawn, never after a signal |
| `CageTheorems.EgressFollowsRunning` | pkg/cage/src/main.rs:138-191 | if what is sent arrives: every running agent is registered under the allow list its current VM was started with and exactly the unblocked IPv4 addresses resolved for it, and the rest of the registrations are those of failed health restarts |
| `CageTheorems.RegisteredMeansRunning` | pkg/cage/src/main.rs:171-190 | if what is sent arrives: registered agents are running at every step of a run exactly when no health restart in it fails |
| `CageTheorems.RestartMayFail` | pkg/cage/src/main.rs:169-190 | a run from start-up in which a health restart fails, for any agent that one failed probe condemns: it ends registered and not running although everything sent arrives |
| `CageTheorems.StepRegisters` | pkg/cage/src/main.rs:212-430 | each lifecycle step whose own notifications arrive keeps the registration invariant |
| `CageTheorems.HealthRestartRegisters` | pkg/cage/src/main.rs:171-190 | a health restart re-registers its agent, or leaves its old entry behind |
| `CageTheorems.OnlyRunningAgentsReachOut` | pkg/cage/src/main.rs:164-206 | end to end, if what is sent arrives and is written: the rules file lets a packet out exactly when anyone may send it, or its destination was resolved for a running agent and is not blocked, or an agent left behind still holds it |
| `CageTheorems.UnhealthyExactly` | pkg/cage/src/vm.rs:189-224 | an agent stands reported exactly when the failed probes since its VM started or last answered number max(1, max_failures); probes are at least the interval apart |
| `CageTheorems.ProbeRefines` | pkg/cage/src/vm.rs:193-220 | one check keeps the counter equal to the streak, the timestamp equal to the last probe, and reports exactly at the limit |
| `CageTheorems.RestartBeginsAfresh` | pkg/cage/src/main.rs:170-190 | a successful health restart begins a new incarnation with an empty history, on the manifest now on file |
| `Cage.VmManager.StartAgent` | pkg/cage/src/vm.rs:53-140 | refused exactly while the agent is tracked; otherwise one spawn is asked for, and the VM is tracked with a fresh health state or nothing changes, the latter only where spawning can fail |
| `Cage.VmManager.StopAgent` | pkg/cage/src/vm.rs:143-155 | forgets the VM and sends SIGTERM to its process, or reports that it does not run |
| `Cage.VmManager.HandleExit` | pkg/cage/src/vm.rs:158-174 | forgets a VM with that pid and reports its name and status; none when there is none |
| `Cage.VmManager.HealthCheckSweep` | pkg/cage/src/vm.rs:189-224 | exactly the due agents are connected to, once each; a refusal counts, an answer resets, and exactly those that reach the limit are reported, once each; no other changes |
| `Cage.VmManager.CheckAgent` | pkg/cage/src/vm.rs:193-220 | one agent: connected to exactly when due, counted by what the connect returned |
| `Cage.LoadManifests` | pkg/cage/src/main.rs:432-466 | manifests are filed under their own names; exactly the parsed names, the file read last winning |
| `Cage.CageDaemon.HandleStart` | pkg/cage/src/main.rs:351-380 | a run of one start step with exactly its calls, and its answer; where spawning is sure, any known agent not running is started; a VM started is announced to egress |
| `Cage.CageDaemon.HandleStop` | pkg/cage/src/main.rs:416-430 | a run of one stop step with exactly its calls, and its answer: the process is signalled and the agent deregistered |
| `Cage.CageDaemon.HandleDeploy` | pkg/cage/src/main.rs:382-414 | files the unpacked manifest and starts it unless it already runs, as one step with exactly its calls; where spawning is sure, the agent runs afterwards; a bundle that cannot be unpacked does nothing |
| `Cage.CageDaemon.HandleExit` | pkg/cage/src/main.rs:219-282 | forgetting, deregistering, pausing and restarting are one exit step, for the pid and status that waitpid reported, with exactly its calls |
| `Cage.CageDaemon.ReapChildren` | pkg/cage/src/main.rs:212-284 | reaping is a run of exit steps and nothing else, until waitpid has none to report or as many as allowed |
| `Cage.CageDaemon.HealthPass` | pkg/cage/src/main.rs:169-191 | first exactly the due agents are connected to, once each; reported are exactly those at the limit by what the connects returned; each of them runs as a new incarnation or, only where spawning can fail, is left behind; each other one is otherwise as it was |
| `Cage.CageDaemon.Turn` | pkg/cage/src/main.rs:165-206 | one turn of the main loop, as a run with exactly its calls: exits reaped until waitpid has none to report or as many as allowed, one health check, the connection's commands in order |
| `Cage.CageDaemon.RestartUnhealthy` | pkg/cage/src/main.rs:171-190 | the process is signalled and, without deregistration, a new one asked for, as one step with its whole new state and exactly its calls |
| `Cage.CageDaemon.RunDaemon` | pkg/cage/src/main.rs:137-206 | the daemon's whole life is a run from an initial world with exactly its calls: it starts exactly the agents with a rootfs and then takes one turn per connection; safety and health invariants hold, over a reliable link the registration invariant, and with writes succeeding the file is in step |
| `Base64.Base64Encode` | pkg/nullweb/src/routes.rs:195-216 | for every byte string: length 4*ceil(n/3), and a strict decoder (section 4 of RFC 4648) gives the input back |
| `Base64.RoundTrip` | pkg/nullweb/src/routes.rs:195-216 | decoding inverts encoding |
| `Base64.Canonical` | pkg/nullweb/src/routes.rs:195-216 | only the encoding of some bytes decodes to them, so unused bits are zero |
| `Base64.EncodingIsInjective` | pkg/nullweb/src/routes.rs:195-216 | equal texts come from equal bytes |
| `Base64.EncodedLength` | pkg/nullweb/src/routes.rs:196 | the length of the encoding |
| `Base64.PaddingOnlyAtTheEnd` | pkg/nullweb/src/routes.rs:204-213 | padding stands only in the last two places |
| `Base64.ShiftAndMask` | pkg/nullweb/src/routes.rs:201-210 | the four shifts and masks regroup three octets into four sextets |
| `Like.PrefixQueryMeaning` | pkg/ctxgraph/src/store.rs:97-110 | the query selects exactly the keys that begin with the prefix, up to ASCII case, if and only if the prefix has no backslash, no NUL and none of U+FFFD, U+FFFE, U+FFFF |
| `Like.TwoPassesAreOne` | pkg/ctxgraph/src/store.rs:101 | the two replacements in a row are one character-wise escape |
| `Like.MatchesPrefix` | pkg/ctxgraph/src/store.rs:101-107 | for a prefix without a backslash or one of those three characters, a matcher with backtracking accepts exactly the texts that begin with it; the engine applies it up to the first NUL of pattern and key |
| `Like.BeginsUpToNul` | pkg/ctxgraph/src/store.rs:101-107 | for a NUL-free prefix, cutting a key at its first NUL does not change whether it begins with the prefix |
| `Like.NulMisleads` | pkg/ctxgraph/src/store.rs:101-107 | for every prefix with a NUL, two keys the query cannot tell apart although only one begins with it |
| `Like.BlurMisleads` | pkg/ctxgraph/src/store.rs:101-107 | for every prefix with one of the three characters the engine reads alike, two keys the query cannot tell apart although only one begins with it |
| `Like.TwinsMatchAlike` | pkg/ctxgraph/src/store.rs:107 | no pattern distinguishes a key from one with those characters exchanged |
| `Like.SampleMatches` | pkg/ctxgraph/src/store.rs:101-107 | for every prefix with a backslash, a key the pattern matches |
| `Like.SampleDoesNotBegin` | pkg/ctxgraph/src/store.rs:101-107 | that key does not begin with the prefix |
| `Ctxgraph.FramingMeaning` | pkg/ctxgraph/src/entry.rs:19-33 | the hash input identifies agent id, key and value if and only if neither id nor key has a NUL |
| `Ctxgraph.FramingIsInjective` | pkg/ctxgraph/src/entry.rs:24-31 | framing is injective on NUL-free ids and keys |
| `Ctxgraph.HashEntry` | pkg/ctxgraph/src/entry.rs:19-33 | what is fed to the hasher, in order |
| `Ctxgraph.Store.Write` | pkg/ctxgraph/src/store.rs:48-68 | returns the hash of agent id, NUL, key, NUL and canonical value; afterwards the table is that of the run of all writes so far, this one last |
| `Ctxgraph.Store.Read` | pkg/ctxgraph/src/store.rs:71-94 | finds nothing exactly under hashes no write returned; the hash of any NUL-free write of an exact value gives its id, key and value, with the first timestamp |
| `Ctxgraph.Store.QueryByPrefix` | pkg/ctxgraph/src/store.rs:97-128 | exactly the selected rows, each once, newest first; for a plain prefix (no backslash, NUL or one of U+FFFD to U+FFFF), exactly the rows whose key begins with it |
| `Ctxgraph.AppendOnly` | pkg/ctxgraph/src/store.rs:59-65 | a stored row is unchanged by any further writes |
| `Ctxgraph.FirstWriteWins` | pkg/ctxgraph/src/store.rs:46-68 | the row stored for a write is that of the first write of its hash |
| `Ctxgraph.WritingAgainIsNoOp` | pkg/ctxgraph/src/store.rs:47 | writing a content again changes nothing |
| `Ctxgraph.ReadsBack` | pkg/ctxgraph/src/store.rs:48-94 | whatever the other writes, reading the hash of a NUL-free write of an exact value gives its id, key and value, with the first timestamp, after any run |
| `Ctxgraph.ReadBackMeaning` | pkg/ctxgraph/src/store.rs:48-94 | a write reads back in every run it occurs in if and only if its id and key are NUL-free and its value survives the JSON text |
| `Ctxgraph.NulBreaksReadBack` | pkg/ctxgraph/src/entry.rs:24-31 | two different writes that share a row, so that the second does not read back |

## Left out

- Sockets, JSON, logging, audit records, timeouts, the control socket, the HTTP server, `nullctl`: plumbing around the modelled calls.
- spawn, kill, waitpid, DNS, the clock and the file system: environment results, under the assumptions stated above.
- Main loops without end: a run has an arbitrary but finite number of turns, reaped children and connections, given as an argument.
- Iteration order of hash maps and of the ordered sets of addresses and syscall numbers: arbitrary, so results hold in particular for ascending order.
- IPv6 addresses and prefixes are carried as their printed text, and how an IPv6 prefix matches is a parameter of rule evaluation; no theorem depends on it.
- Sentinel registration, secrets, vCPU, memory and mount settings of a VM, root file systems and bundle unpacking: not part of the lifecycle protocol. A crash restart deregisters from sentinel and does not register again.
- Whether `nft` accepts the file: the daemon reports success regardless, so the rules file is the modelled state.
- `generate_ruleset` of the unused tap mode, `history`, `by_agent`, `canonical_json`, warden, libkrun, Landlock and the built-in service table: library calls or easy members.
- Syscall numbers are the x86_64 values of the libc constants; other architectures are not modelled.
- Call: reads of the clock, sleeps and polls of a child that is still alive are not recorded.
- Exec: covers load, equality jump and return, the instructions of these filters; any other instruction is a fault.
- Codec.Sound: SHA-256 is assumed free of collisions, and the canonical JSON form injective and NUL-free; `SoundCodecsExist` shows that this can be met. That the stored JSON reads back as the value is not assumed, since plain serde_json may not return every float: `Exact` is part of the conditions. Text stands for its UTF-8 bytes.
- QueryByPrefix: leaves the order of rows with equal timestamps open, as the query does; that SQLite refuses patterns of more than 50,000 bytes is not modelled.
- GenerateTsiRuleset: prints the fixed lines from their tokens; that they are the literals of pkg/egress/src/firewall.rs:47-120 is by reading.
- RegisteredMeansRunning: a restart of egress or of cage by nulld is not an event of these runs.
- ReapChildren: the number of exits reaped in one go is bounded by an argument.
- UnhealthyExactly: a probe's time is the one read when its sweep began, as in the code; the connect itself may come up to seconds later.
- CounterFits: the counter is unbounded in the model; this lemma says for how long that makes no difference. The failure counter of health checks never passes its limit, so it fits.
- EgressFollowsRunning: assumes that the notifications sent arrive, which the code does not enforce: a lost one is logged and forgotten.
- CageModel.AfterStart: the start of a VM and its notification are one step; between them the daemon handles no other event.
