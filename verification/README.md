# Verification of the sandbox control plane, node agent and firewall

This project models the two daemons of the repository and proves what their state machines and algorithms keep.
Each part pairs the code, in its own imperative form, with a specification that does not mention the code.

**The orchestrator** (`sandboxd-orch`). `Repo` holds the SQLite tables as maps; `Repo.SqliteRepo` is the object
whose methods are the repository calls. `ControlPlane` is a state machine over the tables: an event is one service
operation on one sandbox or one node deletion, and every reply of a node is part of the event, chosen by the
environment. `Service.Orchestrator` has the service's methods, and each is proved to perform exactly one such event,
so that what `ControlPlaneSafety` proves of every run holds of them. `Outcomes` and `Placements` say what each event
does over the two databases and its arguments alone, without the functions the events are written with; `Lives` follows
one sandbox over whole runs. `Scheduler` has the port allocator and the node choice, `StatusSync` the status merge,
`RepoInterleaving` the same writers at the granularity of single repository calls, `Ledger` the CPU and memory
accounting of nodes (`LedgerWitness` a run on which it fails), `Heartbeat` the readiness hysteresis.

**The node agent** (`sandboxd-let`). `Admission` has the capacity checks and `AdmissionRuns` the locking protocol
around them, in which a listing is read entry by entry while other goroutines write the store, and which says exactly
when a step can raise usage; `AdmissionAlone` follows one sandbox through it undisturbed, `AdmissionTiming` is a run on
which usage is raised. `RuntimeStatus` goes from container states
to the orchestrator's phase. `Unhealthy` is the reconcile loop's memory of unhealthy sandboxes, `Paging` and `Logs`
are the two cursors.

**The firewall** (`sandboxd-let/network`). `Netfilter` is rule lists, the calls on them and first-match evaluation.
`FirewallRules` is what is written for one sandbox, `FirewallCalls.Iptables` the code, `Firewall` and `FirewallRuns`
its effect over runs, `FirewallPolicy` its meaning, `FirewallHooks` the global chains, `FirewallLife` runs in which
the agent restarts at any time, `FirewallBoxes` the theorems about whole sandboxes, `FirewallOutside` everybody else's
traffic, `HostPorts` the nat table.

`Types`, `Strings`, `Numbers`, `Sums` and `Sorting` are vocabulary.

## Step granularity and assumptions

- Every repository call is atomic (one database connection; the reservation is one transaction) and storage does not
  fail.
- In `ControlPlane` one operation on one sandbox, or one node deletion, is a step that includes its own read of the row;
  there is one scheduler thread. `RepoInterleaving` drops this: there every repository call is a step.
- Every write of a sandbox row gets a timestamp no earlier write had (`clock`).
- Integers are unbounded and requests in the ledger's exactness theorem are not negative (`Ledger.Smooth`).
- Admission: usage stays within the limits as long as a provisioning that completes with success finds its sandbox
  still counting (`AdmissionRuns.Undisturbed`). The code has no such check; timing sees to it
  (`AdmissionRuns.Timely`): an id is not used again, and does not time out, while a provisioning of it is pending, and
  a lock that the reconcile loop found free is still free when it acts. Without `Timely` the loop may act on any entry
  of a stale listing at any time.
- Firewall: a sandbox is published with an address and a chain name that no live one has, and its chains and rules
  were not in the table before (`FirewallBoxes.CanDoBox`). Restarts may come at any time, with any hook names but
  those of the sandbox chains (`FirewallHooks.ForeignHooks`).

## What the code does not keep

Four things a reader might expect are false of the code; each has a failing run and the exact condition.

- *The ledger equals the load.* A failed create adds nothing, but the deletion that follows subtracts. On every run
  the drift is what clamping added minus what was never charged (`Ledger.RunAccounts`), so the ledger is exact if and
  only if the two agree; one event keeps exactness if and only if it is neither a failed create with a demand nor a
  removal that its guards let through and that asks for more than the row holds (`Ledger.StepIsExact`).
  `LedgerWitness.UnderchargeWitness` is a run from the empty database that ends with nothing used under a load of 50.
- *Deleting is final.* At repository-call granularity exactly a blind status write, or a reservation that goes through,
  revives a sandbox (`RepoInterleaving.OnlyBlindWritesRevive`). `RepoInterleaving.SchedulerCanRevive` is an interleaving
  from the empty database: create, reservation, deletion mark, and the scheduler's last write.
- *Log pages are the file's lines.* They are exactly when no request is made with a cursor inside a line of a file
  that has something behind it (`Logs.PagesAreTheLines`, guard `Logs.InsideLine`); only a page that reached the end of
  an unfinished line can leave such a cursor (`Logs.MoreEndsLine`). `Logs.BrokenLineWitness` is a session that breaks
  a line.
- *Admission never overcommits.* A step other than a save raises usage if and only if it completes with success a
  provisioning whose stored sandbox is gone or no longer counts, and which weighs something
  (`AdmissionRuns.RaisesExactly`, over whole runs `AdmissionRuns.OnlyDisturbedStepsRaise`).
  `AdmissionTiming.LateProvisioningOvercommits` is such a run.

## Model

| member | source | states |
|---|---|---|
| ControlPlaneSafety.RunKeeps | sandboxd-orch/service/sandbox_ops.go:60-752 | over every run and all node replies: no two port rows share node and port, every row has a sandbox, a sandbox holds none or exactly its assigned ports on its node, Pending means no node and no rows, and Deleting ends only by removal of the row |
| ControlPlaneSafety.StepKeeps | sandboxd-orch/service/sandbox_ops.go:60-320 | each single event keeps all of that |
| ControlPlaneSafety.PlaceKeeps | sandboxd-orch/service/sandbox_ops.go:260-320 | a valid allocation never meets a conflict; the sandbox ends Running holding exactly its claim, or Failed holding nothing; no other sandbox changes |
| ControlPlaneSafety.ReserveKeeps | sandboxd-orch/repo/sandbox_repo.go:124-169 | from Pending, free distinct ports can always be reserved and become the sandbox's only rows |
| ControlPlaneSafety.FinalizeKeeps | sandboxd-orch/service/sandbox_ops.go:84-125 | a finalization removes the row and its ports, or leaves the sandbox Deleting; nothing else moves |
| ControlPlaneSafety.RemovalKeeps | sandboxd-orch/service/sandbox_ops.go:60-125 | deletion, trigger, reconciler and TTL, whatever the node answers, keep the tables in step, and a sandbox being deleted stays so or is gone |
| ControlPlaneSafety.DetachAllKeeps | sandboxd-orch/service/node_ops.go:122-177 | detaching sandboxes keeps the tables in step however far it gets before a node refuses |
| ControlPlaneSafety.DropNodeKeeps | sandboxd-orch/repo/node_repo.go:212-224 | removing a node's tables takes the rows of its sandboxes whole |
| ControlPlaneSafety.CreateKeeps | sandboxd-orch/service/sandbox_ops.go:24-50 | a new sandbox starts without rows and disturbs nothing |
| Outcomes.TurnedDownMeans | sandboxd-orch/service/sandbox_ops.go:127-174 | which creation requests are turned down, item by item |
| Outcomes.CreateOutcome | sandboxd-orch/service/sandbox_ops.go:24-50 | a new sandbox has its spec, no node, no ports, nothing to report, and at any time t is due by age if and only if it has a time to live and now + ttl < t |
| Outcomes.RemovalOutcome | sandboxd-orch/service/sandbox_ops.go:60-125 | every removal path: a repeated delete request does nothing; a refusing registered node keeps the row, marked, with its error; otherwise row and port rows are gone and exactly the node's ledger row gets the share back |
| Outcomes.NodeRemovalOutcome | sandboxd-orch/service/node_ops.go:104-177 | a removal that goes through leaves the node in no table and on no port row; what ran or was scheduled there is Failed without node and ports, what was being deleted there is gone, and everything else is unchanged |
| Outcomes.GivesUpMeans | sandboxd-orch/service/node_ops.go:122-177 | a removal is given up exactly when it is gentle and the node is unregistered, cannot be asked to reconcile, or fails to delete a sandbox that is Running or Scheduled on it, in whatever order they are listed |
| Outcomes.RegisterOutcome | sandboxd-orch/repo/node_repo.go:181-210 | registering again keeps state and resources, a new node is Unknown with nothing |
| Outcomes.ProbeOutcome | sandboxd-orch/repo/node_repo.go:277-348 | a heartbeat sets one state, a measurement one resource row, and nothing else |
| Placements.PlaceIsBest | sandboxd-orch/service/sandbox_ops.go:212-258 | a placement goes to a Ready node with enough CPU and memory and ports that serve, and any other such node has less CPU left, or as much and a later name |
| Placements.NoPlaceMeans | sandboxd-orch/service/sandbox_ops.go:240-247 | the scheduler gives up exactly when no node suits |
| Placements.EnoughMeans | sandboxd-orch/service/sandbox_ops.go:455-500 | counting free ports succeeds exactly when some valid allocation exists |
| Placements.PlaceOutcome | sandboxd-orch/service/sandbox_ops.go:262-320 | the whole row after a placement: phase, node, ports, address, external name and error, and exactly the rows for its ports, or none |
| Lives.RunKeepsLawful | sandboxd-orch/service/sandbox_ops.go:127-174 | in every state of every run each port row is in the configured range, has a real container port and protocol, and is what its sandbox's spec asked for |
| Lives.LivesItsTime | sandboxd-orch/service/sandbox_ops.go:502-535 | whatever happens to a sandbox after its creation, a reconciler pass at t leaves its row alone unless its time to live is over, and takes it when it is and its node does not refuse |
| Lives.ComesAndGoes | sandboxd-orch/service/sandbox_ops.go:24-320 | creating, placing and deleting a sandbox restores every table, ledger included |
| Repo.SqliteRepo.ReserveSandboxPortsAndSchedule | sandboxd-orch/repo/sandbox_repo.go:124-169 | the check and insert loops take effect entirely or not at all, and fail exactly on a taken port, a repeated port or a missing sandbox |
| Repo.SqliteRepo.UpdateSandboxStatus | sandboxd-orch/repo/sandbox_repo.go:79-87 | writes the status under a new timestamp and nothing else |
| Repo.SqliteRepo.UpdateSandboxStatusIfUnchanged | sandboxd-orch/repo/sandbox_repo.go:89-113 | writes exactly when the row still carries the expected timestamp, and says so |
| Repo.SqliteRepo.ReleaseSandboxPorts | sandboxd-orch/repo/sandbox_repo.go:171-174 | removes this sandbox's port rows and no other |
| Repo.SqliteRepo.DeleteSandbox | sandboxd-orch/repo/sandbox_repo.go:115-122 | removes the row together with its port rows |
| Repo.SqliteRepo.NodeUsedHostPorts | sandboxd-orch/repo/sandbox_repo.go:176-195 | the set of ports with a row on the node |
| Repo.SqliteRepo.AdjustNodeResourceUsage | sandboxd-orch/repo/node_repo.go:350-372 | used columns clamped at zero and available columns recomputed from them |
| Repo.SqliteRepo.DeleteNode | sandboxd-orch/repo/node_repo.go:212-224 | node, resources and port rows of the node go, and nothing else |
| Service.Orchestrator.CreateSandbox | sandboxd-orch/service/sandbox_ops.go:24-50 | turned down exactly for a blank id or a bad spec, refused exactly for a stored id, and otherwise the row is as asked for and due when its time to live is over |
| Service.Orchestrator.ScheduleOne | sandboxd-orch/service/sandbox_ops.go:197-320 | performs exactly one event: "no feasible node" if and only if there is none, otherwise a placement on the chosen node with a valid allocation |
| Service.Orchestrator.FinalizeSandboxDelete | sandboxd-orch/service/sandbox_ops.go:84-125 | a refusing registered node leaves only an error; otherwise ports, row and ledger share go |
| Service.Orchestrator.DeleteSandbox | sandboxd-orch/service/sandbox_ops.go:60-82 | rejects exactly a blank id, finds exactly the stored trimmed ids, and then does nothing, keeps the row under a refusing node, or takes it with its ports and share |
| Service.Orchestrator.TriggerSandboxReconcile | sandboxd-orch/service/sandbox_ops.go:567-583 | finds exactly the stored trimmed ids, and keeps the row under a refusing node or takes it with its ports and share |
| Service.Orchestrator.RefreshSandboxIPSoon | sandboxd-orch/service/sandbox_ops.go:336-375 | a stored sandbox that is not being deleted gets the first address among at most ten answers, unless a call fails first; nothing else changes |
| Service.Orchestrator.ReconcileOne | sandboxd-orch/service/sandbox_ops.go:502-535 | what is marked or overdue is kept under a refusing node or taken with ports and share, the rest is left |
| Service.Orchestrator.SyncOne | sandboxd-orch/service/sandbox_ops.go:688-751 | a write is attempted exactly when a report changes the status or a missing sandbox may be given up; the status is then Failed as lost, or what the report says |
| Service.Orchestrator.DeleteNodeForce | sandboxd-orch/service/node_ops.go:104-177 | rejects a blank id, gives up exactly when gentle and refused, and otherwise leaves the node nowhere and its sandboxes without it |
| Service.Orchestrator.RunSchedulerOnce | sandboxd-orch/service/sandbox_ops.go:176-195 | run alone, is a run of events after which every sandbox that was Pending runs with exactly its ports, or failed with none because its node refused, or failed because no node was feasible at its turn; every other is untouched |
| Service.Orchestrator.RunSandboxReconcileOnce | sandboxd-orch/service/sandbox_ops.go:502-535 | run alone, what was Deleting or expired is gone, or still Deleting because its registered node refused |
| Service.Orchestrator.SyncNodeSandboxBatch | sandboxd-orch/service/sandbox_ops.go:664-752 | after a pass every listed sandbox that is reported missing, and neither Deleting nor Scheduled, is Failed as lost with node, ports, address and expiry kept; every listed one with a report follows it in phase, reason, address and external name; all others are unchanged |
| Service.ScheduleSettles | sandboxd-orch/service/sandbox_ops.go:197-320 | one placement settles its sandbox and nobody else's |
| Service.FirstAddressMeans | sandboxd-orch/service/sandbox_ops.go:345-352 | an address is found exactly when the first answer that is a failure or an address is an address |
| Service.TargetIdempotent | sandboxd-orch/service/sandbox_ops.go:688-751 | the target of a status under a fixed report is a fixpoint |
| Service.SecondPassChangesNothing | sandboxd-orch/service/sandbox_ops.go:664-752 | a second pass with the same report changes no status |
| StatusSync.MergePhase | sandboxd-orch/service/sandbox_ops.go:758-838 | the merged status, with `changed` true exactly when it differs |
| StatusSync.SyncStatus | sandboxd-orch/service/sandbox_ops.go:732-741 | merged phase, address and external name, with `changed` true exactly when something differs |
| StatusSync.SyncedFollows | sandboxd-orch/service/sandbox_ops.go:732-838 | phase, reason, address and external name of a synced status by the report's words; an error gives all its texts, else the first unhealthy container is blamed |
| StatusSync.LostMeans | sandboxd-orch/service/sandbox_ops.go:702-708 | a lost sandbox is Failed, says so, and keeps everything but the external name |
| StatusSync.SyncConverges | sandboxd-orch/service/sandbox_ops.go:758-852 | merging the same report twice is merging it once |
| StatusSync.SyncKeepsPlacement | sandboxd-orch/service/sandbox_ops.go:758-852 | no report touches node, ports or expiry, and the phase never leaves what a live sandbox may have |
| Scheduler.AllocateHostPorts | sandboxd-orch/service/sandbox_ops.go:455-500 | succeeds exactly when the range has enough unused ports (always for an empty spec); for any shuffle the result is in spec order, in range, distinct and unused |
| Scheduler.AvailablePorts | sandboxd-orch/service/sandbox_ops.go:470-475 | every unused port of the range once |
| Scheduler.Shuffle | sandboxd-orch/service/sandbox_ops.go:481-483 | any exchanges permute the pool |
| Scheduler.Candidates | sandboxd-orch/service/sandbox_ops.go:217-238 | exactly the Ready nodes with enough CPU, memory and free ports, each with a valid allocation |
| Scheduler.PickNode | sandboxd-orch/service/sandbox_ops.go:212-258 | none exactly when no node is feasible, otherwise the greatest available CPU with the least id on ties, whatever the listing order |
| Scheduler.HeadIsChosen | sandboxd-orch/service/sandbox_ops.go:249-258 | the head of the sorted candidates is that node |
| Scheduler.BeforeIsOrder | sandboxd-orch/service/sandbox_ops.go:249-257 | the comparison is an order a sort may rely on |
| Ledger.RunAccounts | sandboxd-orch/service/sandbox_ops.go:84-125 | on every run without resource sync and node removal the drift of ledger against load is clamping minus uncharged demand; exact if and only if these agree |
| Ledger.SmoothRunsAreExact | sandboxd-orch/service/sandbox_ops.go:197-320 | when creates succeed the clamp never fires, used follows the load exactly, available is the rest, and used stays within allocatable |
| Ledger.StepIsExact | sandboxd-orch/service/sandbox_ops.go:84-125 | an event keeps ledger minus load if and only if it is neither a failed create with a demand nor a removal that goes through and asks for more than the row holds |
| Ledger.StepAccounts | sandboxd-orch/service/sandbox_ops.go:424-435 | what each event moves in the ledger and in the load |
| Ledger.FailedCreateUndercharges | sandboxd-orch/service/sandbox_ops.go:285-291 | a failed create followed by its deletion leaves the load and takes the demand off the ledger |
| LedgerWitness.UnderchargeWitness | sandboxd-orch/service/sandbox_ops.go:117-119 | a run from the empty database: a failed create and its deletion take a ledger that agreed with the load of 50 to zero |
| Ledger.ClampedClosedForm | sandboxd-orch/repo/node_repo.go:350-372 | clamped sums: the greatest of u0 plus all deltas and every proper suffix of the deltas |
| Ledger.ClosedForm | sandboxd-orch/repo/node_repo.go:350-372 | any adjustments of a row give that closed form, and available is what is left of allocatable, at least zero |
| RepoInterleaving.SwapIsAtomic | sandboxd-orch/repo/sandbox_repo.go:89-113 | in every interleaving of calls a swap takes effect exactly when the row is the version it was computed from, and then read, computation and write are one atomic event |
| RepoInterleaving.RunKeepsVersions | sandboxd-orch/repo/sandbox_repo.go:79-113 | a row that still carries a snapshot's timestamp is that very row |
| RepoInterleaving.RunKeepsKeys | sandboxd-orch/repo/sandbox_repo.go:124-174 | in every interleaving of single calls no two port rows share node and port and none lacks its sandbox |
| RepoInterleaving.OnlyBlindWritesRevive | sandboxd-orch/service/sandbox_ops.go:313 | exactly which calls bring a sandbox out of Deleting; no status sync and no address refresh does |
| RepoInterleaving.SchedulerCanRevive | sandboxd-orch/service/sandbox_ops.go:313 | from the empty database: create, reservation, deletion mark, and the scheduler's last write, computed from the reserved row, brings the sandbox out of Deleting |
| Heartbeat.HealthFollowsHistory | sandboxd-orch/service/node_ops.go:205-242 | after any probes the state is that of the last completed run of successes or failures, Unknown if none completed; the success streak is the trailing run, capped, and the failure streak the trailing run |
| Heartbeat.DeservesOne | sandboxd-orch/service/node_ops.go:205-242 | a history calls for exactly one state |
| Heartbeat.NodeStatus.ProbeNode | sandboxd-orch/service/node_ops.go:205-242 | the fields after a probe are those the longer history calls for |
| Admission.EnforceAdmission | sandboxd-let/sandbox/resources.go:88-124 | accepts exactly when every quantity parses and 100 times what is used and asked is at most host times percentage, in CPU and in memory |
| Admission.CurrentAllocatedResources | sandboxd-let/sandbox/resources.go:161-186 | the totals over everything stored but one id, deleting and failed sandboxes and unreadable quantities left out |
| Admission.EnsureIPCapacity | sandboxd-let/sandbox/resources.go:222-262 | accepts exactly for an IPv4 block of at least eight addresses with one left beside those in use and two reserved |
| Admission.LimitMeans | sandboxd-let/sandbox/resources.go:109-113 | an amount is within the limit if and only if 100 times it is at most the host's amount times the percentage |
| Admission.SlotsAreAddresses | sandboxd-let/sandbox/resources.go:228-241 | the address limit is the number of addresses in the block other than the first and the last |
| Admission.WeightMeans | sandboxd-let/sandbox/resources.go:161-186 | what one more container adds to a sandbox that counts; an unreadable quantity adds nothing |
| Admission.TotalIsUsed | sandboxd-let/sandbox/resources.go:161-186 | the total over a listing is the usage of the store, whatever the order |
| Admission.NewSandboxState | sandboxd-let/sandbox/state.go:33-63 | the stored record, containers by name |
| Admission.StoredIsAsked | sandboxd-let/sandbox/state.go:33-63 | a stored request weighs exactly what admission added up, in every dimension |
| AdmissionRuns.NeverOvercommitted | sandboxd-let/sandbox/service.go:173-193 | in every state of every undisturbed run of any number of creators, provisioners, deleters and the reconcile loop, CPU, memory and count of counting sandboxes are within the limits, or no higher than they were at the start |
| AdmissionRuns.RaisesExactly | sandboxd-let/sandbox/service.go:205-373 | a step other than a save raises usage if and only if it completes with success a provisioning whose sandbox no longer counts, and which weighs something |
| AdmissionRuns.OnlyDisturbedStepsRaise | sandboxd-let/sandbox/service.go:205-373 | the same of the last step of every run, whatever the timing |
| AdmissionRuns.TimelyRunsAreUndisturbed | sandboxd-let/sandbox/reconcile.go:42-54 | the timing that the two-minute timeout and the lock wait aim at keeps every completing provisioning's sandbox counting |
| AdmissionRuns.TimelyNeverOvercommits | sandboxd-let/sandbox/service.go:173-193 | hence no state of a timely run is overcommitted |
| AdmissionRuns.NothingOverwritten | sandboxd-let/sandbox/service.go:146-193 | on every timely run a save stores a sandbox that was not there |
| AdmissionRuns.ResourcesFitIsEnforceAdmission | sandboxd-let/sandbox/resources.go:88-124 | on a store that stands still, reading entry by entry and checking is the check of EnforceAdmission |
| AdmissionRuns.AddressesFitIsEnsureIPCapacity | sandboxd-let/sandbox/resources.go:222-262 | and likewise the check of EnsureIPCapacity |
| AdmissionAlone.GetsIn | sandboxd-let/sandbox/service.go:124-203 | a creator that is alone gets in whenever there is room, over any store and host |
| AdmissionAlone.SavesOnlyWithRoom | sandboxd-let/sandbox/service.go:181-193 | and none saves a new sandbox without room, whatever others do |
| AdmissionAlone.ComesAndGoes | sandboxd-let/sandbox/service.go:124-373 | admitted, provisioned and stored as asked for, then deleted with everything as before |
| AdmissionAlone.TimesOut | sandboxd-let/sandbox/reconcile.go:47-54 | a timeout puts the entry in error and gives back exactly its share |
| AdmissionAlone.Finalized | sandboxd-let/sandbox/reconcile.go:64-89 | a finalization takes the entry away with exactly its share |
| AdmissionAlone.GivesUpWaiting | sandboxd-let/sandbox/service.go:211-216 | a provisioning that never gets its lock leaves the sandbox in error |
| AdmissionRuns.StepKeepsInv | sandboxd-let/sandbox/service.go:124-229 | every undisturbed step keeps the protocol's invariant; only a save raises usage, and never above a limit |
| AdmissionRuns.StepGives | sandboxd-let/sandbox/service.go:205-373 | the guarantee of everybody else: no undisturbed provisioning, deletion, timeout or finalization raises usage |
| AdmissionRuns.SaveFits | sandboxd-let/sandbox/service.go:181-193 | the save of a creator that passed its checks lands within every limit |
| AdmissionRuns.KnowledgeKept | sandboxd-let/sandbox/resources.go:88-124 | the rely of a creator: a check once passed stays passed, and a half-read listing never undercounts, under any write that gives back |
| AdmissionRuns.ReadKeeps | sandboxd-let/sandbox/resources.go:161-186 | reading one more entry of a moving store keeps the running total an upper bound |
| AdmissionRuns.OwnSandboxOnlySpoiled | sandboxd-let/sandbox/lock.go:14-41 | while a creator holds its sandbox's lock, only a provisioning that gave up or the reconcile loop writes that entry, and then it no longer counts |
| AdmissionRuns.LockNameNeverStored | sandboxd-let/sandbox/lock.go:14-41 | a sandbox named like the admission lock is never stored |
| AdmissionTiming.LateProvisioningOvercommits | sandboxd-let/sandbox/reconcile.go:42-54 | a run without the timing that ends above the limit |
| RuntimeStatus.SandboxCopy.RefreshRuntimeState | sandboxd-let/sandbox/runtime.go:520-581 | the refreshed phase as a function of the runtime's answers, for any iteration order |
| RuntimeStatus.SandboxCopy.ToSandboxSyncStatus | sandboxd-let/http/handlers.go:192-217 | the report carries the copy's phase, address and error and lists each unhealthy container once, with its status and task status |
| RuntimeStatus.RefreshVerdict | sandboxd-let/sandbox/runtime.go:520-613 | what copy and report say in terms of the runtime's answers alone |
| RuntimeStatus.EndToEnd | sandboxd-orch/service/sandbox_ops.go:758-838 | refresh, report and merge give Running exactly when the pod answers and all containers run, Failed when the pod is gone or a container is broken, else the old phase |
| RuntimeStatus.EndToEndReason | sandboxd-orch/service/sandbox_ops.go:758-810 | a sandbox that ends up Failed says why: the pod is gone, a container was not found or not readable, or a named container stopped |
| RuntimeStatus.BrokenIsListed | sandboxd-let/http/handlers.go:192-217 | every broken container is in the report, in the runtime's words |
| RuntimeStatus.ListedIsBroken | sandboxd-let/http/handlers.go:192-217 | and nothing else is |
| RuntimeStatus.ContainerVerdict | sandboxd-let/sandbox/runtime.go:583-613 | when one container counts as unhealthy, placeholders of a sandbox under creation excepted |
| FirewallCalls.Iptables.EnsureGlobalChains | sandboxd-let/network/firewall.go:62-101 | the hook loop and insertions amount to one function of the table |
| FirewallCalls.Iptables.ApplySandboxRules | sandboxd-let/network/firewall.go:104-173 | the calls install the compiled plan; succeeds exactly when both global chains exist |
| FirewallCalls.Iptables.DeleteSandboxRules | sandboxd-let/network/firewall.go:176-203 | the calls remove the compiled plan |
| FirewallCalls.Iptables.InsertForwardAccepts | sandboxd-let/network/firewall.go:330-341 | delete-then-insert at position 2 for every published port |
| FirewallCalls.Iptables.InsertFirst | sandboxd-let/network/firewall.go:343-353 | the rule ends first and once removed from behind |
| Firewall.ApplyIsAdd | sandboxd-let/network/firewall.go:104-173 | on a table that does not know the sandbox, all calls together add its block behind the hook, its two jumps and its two chains |
| Firewall.DeleteIsSub | sandboxd-let/network/firewall.go:176-203 | all deletions together remove every rule of the sandbox, repeated ports included, and its chains can be deleted because nothing refers to them |
| Firewall.SubAdd | sandboxd-let/network/firewall.go:104-203 | removal undoes installation |
| Firewall.SubAddOther | sandboxd-let/network/firewall.go:104-203 | removal commutes with another sandbox's installation |
| FirewallRuns.RunIsCanon | sandboxd-let/network/firewall.go:104-203 | after any run of installs and removals the table is a function of the live sandboxes in order |
| FirewallRuns.RoundTrip | sandboxd-let/network/firewall.go:104-203 | installing, any run for others, and removing leaves exactly what the others alone would have left |
| FirewallLife.LifeIsGood | sandboxd-let/network/firewall.go:62-203 | over installs, removals and restarts in any order the table keeps dispatching each live sandbox to its own chains, holds its rules once, and holds nothing that is not foreign, global or a live sandbox's |
| FirewallLife.LifeRoundTrip | sandboxd-let/network/firewall.go:62-203 | installing, any run for others with restarts in between, and removing leaves exactly what that run alone would have left |
| FirewallPolicy.FwdRulesMean | sandboxd-let/network/firewall.go:133-158 | a sandbox's chain decides every packet as the policy says |
| FirewallPolicy.InRulesMean | sandboxd-let/network/firewall.go:160-170 | its input chain accepts replies and traffic from published ports only |
| FirewallPolicy.RejectedMeans | sandboxd-let/network/firewall.go:144-152 | an address is in a rejected network exactly when it is in the bridge or, by its leading octets, in a special-purpose network |
| FirewallPolicy.SandboxTraffic | sandboxd-let/network/firewall.go:104-173 | first match over FORWARD on any packet of a live sandbox is exactly the policy, whatever else is live |
| FirewallPolicy.SandboxToHost | sandboxd-let/network/firewall.go:160-170 | first match over INPUT on a live sandbox's packets from its bridge is exactly the host policy, whatever else INPUT holds |
| FirewallPolicy.PublishedIsReachable | sandboxd-let/network/firewall.go:125-131 | a packet from outside to a published address, protocol and port is accepted |
| FirewallPolicy.SandboxesAreIsolated | sandboxd-let/network/firewall.go:144-152 | no sandbox opens a connection into the bridge network, published ports included |
| FirewallBoxes.PolicyAfterAnyRun | sandboxd-let/network/firewall.go:62-203 | from bare global chains, after every run of publications, withdrawals and restarts, every packet of every live sandbox, forwarded or to the host, and every packet from outside to a published port, gets the policy's verdict |
| FirewallBoxes.PolicyFromFirstStart | sandboxd-let/network/firewall.go:62-101 | the same from a table that never saw the agent, whatever foreign rules it holds |
| FirewallBoxes.PublishThenWithdraw | sandboxd-let/network/firewall.go:62-203 | publishing a sandbox, any run for others with any restarts, and withdrawing it leaves what the rest alone would have left |
| FirewallBoxes.RunBoxes | sandboxd-let/network/firewall.go:104-203 | distinct addresses and chain names are all that compiled sandboxes need to keep out of each other's way |
| FirewallOutside.SandboxAfterAnyRun | sandboxd-let/network/firewall.go:62-203 | after any run a sandbox's packet is accepted exactly if it is a reply, a name lookup with egress, or goes with egress to what is not host, bridge or special-purpose; to the host, exactly if it is a reply or comes from a published port |
| FirewallOutside.OutsideAfterAnyRun | sandboxd-let/network/firewall.go:62-203 | after any run a packet that no sandbox sent and no foreign rule takes is accepted exactly if established, marked or to a published port; nothing else is opened |
| FirewallOutside.HostAfterAnyRun | sandboxd-let/network/firewall.go:96-117 | after any run a packet to the host that no sandbox sent over its own bridge meets only what follows the hook |
| FirewallOutside.HookChainsAfterAnyRun | sandboxd-let/network/firewall.go:82-94 | every configured chain that existed at the first start decides sandboxes' packets the same way after any run |
| FirewallHooks.EnsureGlobalStarts | sandboxd-let/network/firewall.go:62-101 | on a fresh table: hook, established and marked accepts lead FORWARD, whatever hook names are configured |
| FirewallHooks.EnsureGlobalKeepsServing | sandboxd-let/network/firewall.go:62-101 | a restart under live sandboxes reorders FORWARD but serves every one of them as before |
| HostPorts.NatTable.ApplyHostPortDNAT | sandboxd-let/network/firewall.go:206-231 | both lists grow by the publication's missing rules |
| HostPorts.NatTable.DeleteHostPortDNAT | sandboxd-let/network/firewall.go:234-251 | both lists lose the publication's rules one by one |
| HostPorts.RoundTrip | sandboxd-let/network/firewall.go:206-251 | deleting after any calls for other sandboxes leaves what those calls alone would have left, repeated forwards included |
| HostPorts.RunHoldsLive | sandboxd-let/network/firewall.go:206-251 | after any run a list is the foreign rules followed by exactly the live publications' rules, once each |
| HostPorts.PublishedPortsLead | sandboxd-let/network/firewall.go:206-231 | a packet no foreign rule takes goes to the live sandbox that published its host port and protocol, to its address and container port, and nowhere if none did; OUTPUT takes only what goes to the host |
| Unhealthy.Reconciler.ShouldFinalizeUnhealthy | sandboxd-let/sandbox/reconcile.go:222-239 | fires exactly when the observations since the last clear number at least max(2, hits) and span at least the grace period |
| Unhealthy.Reconciler.ClearUnhealthy | sandboxd-let/sandbox/reconcile.go:241-246 | forgets this id and no other |
| Unhealthy.Reconciler.ReconcileOnce | sandboxd-let/sandbox/reconcile.go:20-101 | every decision of a pass is a function of the whole history of observations |
| Unhealthy.FirstFinalization | sandboxd-let/sandbox/reconcile.go:56-89 | with other sandboxes in between, one that is unwell from the start is finalized at the first look that makes it due and at none before |
| Unhealthy.LookMeans | sandboxd-let/sandbox/reconcile.go:33-92 | one look by what was looked at: left alone if locked, deleting or created less than two minutes ago; timed out if still creating; cleared if well; else observed, and finalized when seen often and long enough |
| Unhealthy.StaysDue | sandboxd-let/sandbox/reconcile.go:222-239 | over time-ordered observations a sandbox that is due stays due |
| Paging.ListSandboxesPage | sandboxd-let/sandbox/service.go:392-433 | the least ids behind the cursor, as many as the clamped limit, and a next cursor exactly when some are left |
| Paging.PageUnique | sandboxd-let/sandbox/service.go:392-433 | store, cursor and limit leave one possible page |
| Paging.PageSize | sandboxd-let/sandbox/service.go:392-430 | a page holds what is left behind the cursor, 20 at most by default and 200 at most if more are asked for |
| Paging.WalkUnderChurn | sandboxd-let/sandbox/service.go:403-430 | however the store changes between requests, ids come strictly increasing, each from its request's store, and none that stays is missed |
| Paging.ExactlyOnce | sandboxd-let/sandbox/service.go:403-430 | an id present throughout a finished walk is returned exactly once |
| Paging.FixedStoreListsAll | sandboxd-let/sandbox/service.go:392-433 | on an unchanging store the pages are the sorted listing, for any limits |
| Paging.FixedStoreEnds | sandboxd-let/sandbox/service.go:427-430 | and the walk ends within max(1, size) requests |
| Logs.GetContainerLogs | sandboxd-let/sandbox/logs.go:54-113 | rejects exactly the unreadable and negative cursors; a page covers the bytes between two cursors, split into lines, and promises more exactly when there is more |
| Logs.CursorRoundTrip | sandboxd-let/sandbox/logs.go:67-74 | a returned cursor parses back to its offset |
| Logs.CursorMeans | sandboxd-let/sandbox/logs.go:66-74 | a cursor is good exactly when it is blank or writes a number from 0 to 2^63 - 1, and that is where it points |
| Logs.LinesConcat | sandboxd-let/sandbox/logs.go:91-108 | splitting text at a line boundary splits its lines, splitting inside a line makes one more |
| Logs.LinesOfText | sandboxd-let/sandbox/logs.go:94-99 | splitting undoes joining, whichever of the two line ends each line has |
| Logs.PageLines | sandboxd-let/sandbox/logs.go:59-65 | a page that promises more is full: 100 lines by default, 1000 at most |
| Logs.SessionTiles | sandboxd-let/sandbox/logs.go:54-113 | over an append-only file the pages' byte ranges are adjacent and cover it up to the cursor |
| Logs.PagesAreTheLines | sandboxd-let/sandbox/logs.go:54-113 | the pages put together are the file's lines exactly when no request was made with a cursor inside a line |
| Logs.BrokenLineWitness | sandboxd-let/sandbox/logs.go:54-113 | a session over a file read before its first line is finished: the pages hold one line more than the file |
| Logs.MoreEndsLine | sandboxd-let/sandbox/logs.go:94-112 | a page that promises more ends on a line boundary |
| Sorting.SortSorted | sandboxd-orch/service/sandbox_ops.go:249-257 | the contract of sort.Slice, for any order |
| Sorting.HeadIsLeast | sandboxd-orch/service/sandbox_ops.go:249-258 | what a caller that takes the first element relies on: it is a member and nothing is less |

## Left out

- HTTP handlers, routers, clients, command line, logging, configuration: plumbing without a deep property.
- CRI and CNI calls, cgroup writes, /proc and resolv.conf reads: represented by their results, which are parameters.
- SQL text, JSON and time formats; the timestamp of a row is a fresh number and its other columns are left out.
- External objects and the name they give a node: only the resulting string is a parameter.
- The rows node_status keeps after a node is removed and registered again; a heartbeat of an unregistered node.
- Kubernetes quantity parsing: a quantity is a number, or unreadable; 64-bit overflow of the sums is not modelled.
- Unicode beyond ASCII in trimming and case folding.
- FNV hashing of sandbox ids: two ids with the same 32-bit hash would share chains, which the firewall assumptions
  exclude.
- Deletion of nat rules by text matching (DeleteHostPortDNATBySandbox, DeleteOrphanHostPortDNAT): it depends on the
  printed form of rules.
- The host-port check and in-memory reservation of the node agent (service.go:447-532): its table is keyed by port
  alone, so the stored ports of a TCP and a UDP sandbox may mask each other and no clean invariant of runs holds.
- Failing iptables calls, other than on a missing chain; the kernel's limit on jump depth is the parameter `depth`.
- Requests interrupted by their context deadlines, other than the lock wait.
- A log file that is truncated or grows during one read: a request sees one state of the file.
- Service.Orchestrator.ReconcileOne: re-reads the row, where the loop passes its listed copy; the two agree under one
  operation per step.
- Service.Orchestrator.ScheduleOne: likewise takes the row as just read.
- AdmissionRuns.NeverOvercommitted: says nothing of runs with a disturbed step, on which it can fail; which steps those
  are is exact in RaisesExactly.
