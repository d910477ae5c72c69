# 2S-UI: a verified model of its state machines

2S-UI is a panel that embeds sing-box and changes it while it runs. This project models, in Dafny, the parts of it
that are real state machines and proves what their comments promise, for every input, every interleaving and every run.

| module | what it models |
|---|---|
| `Scopes` | `scopeSet`: teardown scopes whose `Start` gives up its lock while the component runs |
| `Dependencies` | the dependency-ordered start of outbounds and the vetting of an edit before a restart |
| `ComponentTable` | one manager's table: ordered list, tag index, recipes, default outbound; create, replace, restore, remove, rename |
| `Instances` | two tables side by side: does a dependency still resolve to the instance it was resolved to |
| `HotRestart` | does a box that was changed while it ran get through its next start |
| `CoreLifecycle` | start, stop, restart queue, retirement and maintenance of the core under one read/write lock |
| `CoreAlone` | what each of those calls achieves when nobody else is in flight |
| `DirtyMarks` | the dirty flag and its generation between edits and reconcile runs |
| `Reconcile` | the diff and push that bring a node's clients in line with the master |
| `TrafficFold` | node counters folded into the master through a baseline |
| `IpLimit` | who keeps a slot under a client's IP limit, and what is remembered about it |
| `ConnTracker` | the table of live connections: identities, the scan's snapshot, closing |
| `Measures` | counting facts shared by the bounds |
| `IpEnforce` | the ban list and the enforcement scan |
| `IpRuns` | what scans guarantee, one by one and over whole runs with restarts |
| `ClusterIpLimit` | the master's plan over all nodes, and a node's acceptance of its bans |
| `LoginGuard` | the login limiter and its sweep |
| `StatsTracker` | counters that are drained and sampled side by side |
| `ResetCalendar`, `ClientReset` | month boundaries with a clamped day, and the periodic reset pass |

State that the program updates in place is a class, and its methods are proved against functions of the old state;
the theorems are about those functions. Protocols with several callers are step relations over all their callers, and
the theorems hold in every reachable state. Building, starting and closing a component, the clock, the database's
success and the network are parameters that may take any value.

## Where the code and its promises part

Each of these is proved: the input that shows it, or the exact condition under which the promise holds.

- When a tag occurs twice among outbounds and endpoints and one component of every tag can be started, the start loop
  stops with nothing left to blame and dereferences nil: exactly then, provided starts succeed
  (`Dependencies.StartOutbounds`). A box with no outbound adds a fallback called `direct`; when that and the endpoints of
  other names could all start, it meets this exactly when an endpoint has that name too
  (`Dependencies.StartWithoutOutbounds`).
- A hot change never vets dependencies. A box that could be restarted before it can be restarted after it exactly unless
  the change goes through with a newcomer whose tag the other table holds, or that names itself, a tag the change takes
  away, or one that is not there (`HotRestart.ChangeIsRestartable`; over whole sequences `HotRestart.AlwaysRestartable`).
  A component without a lifecycle goes in naming a missing tag (`HotRestart.MissingTagGoesUnnoticed`); one with a
  lifecycle goes in naming itself (`HotRestart.SelfMemberFailsRestart`).
- A create empties the outbound table, and leaves no default, exactly when its only outbound is replaced by one that
  builds and does not start, while the old one has no recipe, does not build or does not start again
  (`ComponentTable.CreateEmpties`). The stand-in that guards against an empty table is such an outbound: it has no recipe
  (`ComponentTable.LastOutboundIsLost`).
- A dependency stops resolving to the instance it was resolved to in four ways, and `Instances.ChangeIsFaithful` shows
  that there is no other: a component that names itself replaces the plain one of its tag
  (`Instances.SelfMemberGoesStale`); an endpoint is renamed to one that names its old tag
  (`Instances.RenamedOntoItselfGoesStale`); removing the last outbound brings in the stand-in `direct` while somebody
  depends on an endpoint of that name (`Instances.StandInShadowsEndpoint`); an outbound is created under the tag of an
  endpoint somebody, or the newcomer itself, depends on (`Instances.OutboundShadowsEndpoint`). The managers allow all four; the last is refused
  before it reaches them when it is saved through the panel, because tags are kept apart in the database
  (service/tags.go:43-59).
- The generation check and the UPDATE that clears the dirty flag are two steps. The UPDATE loses an edit exactly when one
  committed after the run's read has bumped the generation and written the flag since the run's check
  (`DirtyMarks.ClearIsTheOnlyGap`, `DirtyMarks.TwoStepsLoseAnEdit`).
- A served ban on a username stays disarmed under attempts at most `gap` seconds apart exactly when the ban and the gap
  fit into the retention of one hour together (or all attempts fall into one second); otherwise the name can be locked
  again (`LoginGuard.DisarmedExactly`, `LoginGuard.AttackRenewsTheBan`).
- A config that was cleared on the node is not repaired by a reconcile run, exactly when everything else the node reports
  agrees (`Reconcile.WhatStaysUnrepaired`); the code's own comment says so.

## Model

| member | source | states |
|---|---|---|
| `Scopes.ScopeSet.constructor` | core/scopes.go:55-61 | A new set is open and empty |
| `Scopes.ScopeSet.Add` | core/scopes.go:63-72 | A cleanup is listed, or runs at once when the set is closed |
| `Scopes.ScopeSet.BeginStart` | core/scopes.go:76-94 | First locked section of Start: refused when closed, otherwise the component's entry, reused or new |
| `Scopes.ScopeSet.EndStart` | core/scopes.go:95-113 | Second locked section of Start: exact test whether the entry was taken over meanwhile |
| `Scopes.ScopeSet.Remove` | core/scopes.go:117-128 | Unlists the component and hands over exactly its entry |
| `Scopes.ScopeSet.Close` | core/scopes.go:132-148 | Closes once and hands over every listed entry |
| `Scopes.ScopeSet.CloseAll` | core/scopes.go:139-171 | Runs the cleanups of the entries taken over, in exactly the reverse of registration order |
| `Scopes.ClosedAllOrder` | core/scopes.go:18-36 | An undisturbed close runs the reverse of all registrations |
| `Scopes.StepKeeps` | core/scopes.go:63-148 | Every atomic step of every caller keeps the ownership invariant |
| `Scopes.ReachableKeeps` | core/scopes.go:63-148 | The invariant holds in every reachable interleaving |
| `Scopes.NothingLeaks` | core/scopes.go:63-148 | In every interleaving a cleanup runs at most once, and one that has not run is on an entry listed or in some caller's hands |
| `Scopes.ClosedByHistory` | core/scopes.go:132-140 | The set is closed exactly when some Close was called |
| `Scopes.ClosedMeansReleased` | core/scopes.go:132-171 | Once Close was called and nobody is in flight, every cleanup ever registered has run exactly once |
| `Scopes.RefusedAfterClose` | core/scopes.go:76-81 | After a Close a Start starts nothing and changes nothing |
| `Scopes.EveryRegistrationCounts` | core/scopes.go:63-113 | Every Add and every registration is a cleanup of its own |
| `Scopes.NothingRunsEarly` | core/scopes.go:63-128 | As long as nobody closes the set, a cleanup handed to Add, or of a component nobody removed, has not run and is listed |
| `Scopes.RemovedMeansReleased` | core/scopes.go:117-128 | Once a component was removed, not started again and nobody is in flight, each of its cleanups has run exactly once |
| `Scopes.OneScopePerComponent` | core/scopes.go:82-88 | The listed scopes are exactly the index: one per component |
| `Scopes.StagesShareAScope` | core/scopes.go:82-88 | A further stage of a listed component runs on the scope of the first |
| `Scopes.OpenStartGetsAScope` | core/scopes.go:76-94 | On a set nobody closed a Start gets a listed scope of its component |
| `Scopes.UndisturbedStartSucceeds` | core/scopes.go:95-113 | A Start during which nobody closes the set or removes the component closes nothing and leaves its scope listed |
| `Scopes.SuccessfulStartIsListed` | core/scopes.go:95-113 | A Start that reports success leaves the very scope it ran on listed |
| `Dependencies.StartOutbounds` | core/managers.go:812-874 | With starts that succeed: everything is started once, after its dependencies, iff tags are distinct and the graph is closed and acyclic; nil is dereferenced iff a tag is doubled and one component of every tag can be started; otherwise the error names a real missing tag or cycle |
| `Dependencies.PicksMove` | core/managers.go:812-854 | While one component of every tag could be started, the loop never comes to rest early |
| `Dependencies.StartWithoutOutbounds` | core/managers.go:767-793 | With no outbound and endpoints of distinct tags: nil is dereferenced iff the fallback and the endpoints of other tags could start and an endpoint has the fallback's tag; the start succeeds iff they could and none has |
| `Dependencies.CoverMeansSound` | core/managers.go:781-854 | If one component of every tag can be started, so can the fallback with the endpoints of other tags |
| `Dependencies.Lint` | core/managers.go:855-871 | From a stuck component, the walk ends in a real cycle or a real missing dependency |
| `Dependencies.JustifiedRefutes` | core/managers.go:855-871 | A named cycle or missing tag really rules out every start order |
| `Dependencies.PositionsFall` | core/managers.go:812-854 | In a dependency-first order every walk of dependencies goes strictly backwards |
| `Dependencies.OrderedIsStartable` | core/managers.go:812-854 | A dependency-first order exists only for closed acyclic graphs |
| `Dependencies.Lookup` | core/managers.go:880-885 | A tag is resolved among outbounds first, then endpoints |
| `Dependencies.WalkDependencies` | core/managers.go:732-752 | The search with a shared seen-set accepts only if everything seen is closed, rejects only with a real culprit |
| `Dependencies.CheckDependencies` | core/managers.go:731-754 | Accepts exactly when nothing reachable from the edited tag is missing and no walk leads back to it |
| `Dependencies.TrappedWalk` | core/managers.go:732-752 | A walk that enters a set closed under dependencies never leaves it |
| `Dependencies.CycleAvoids` | core/managers.go:731-754 | Any cycle of the edited graph is one the search from the edited tag meets |
| `Dependencies.VettingIsExact` | core/managers.go:731-754 | On a startable box, vetting accepts exactly the edits that leave it startable |
| `Dependencies.EditedGraph` | core/endpoint.go:217-231 | The list after the edit has the old graph with one tag's edges replaced, wherever the component is put |
| `Dependencies.VetThenRestart` | core/endpoint.go:217-231 | An accepted edit leads to a restart that meets no missing or circular dependency; a rejected one would have failed |
| `ComponentTable.Manager.constructor` | core/managers.go:205-213 | A new table is empty |
| `ComponentTable.Manager.Add` | core/managers.go:420-431 | Appends, indexes, records the recipe, tells the default hook |
| `ComponentTable.Manager.Swap` | core/managers.go:435-456 | Replaces in place under the new tag, index and recipes following |
| `ComponentTable.Manager.Drop` | core/managers.go:458-470 | Removes from list, index and recipes |
| `ComponentTable.Manager.Start` | core/managers.go:219-232 | The boot: succeeds iff every listed component with a lifecycle starts, and then the table is the valid running one all changes begin from |
| `ComponentTable.BootKeeps` | core/managers.go:767-793 | A started table is valid; without route.final it has an outbound, and the first is the default |
| `ComponentTable.Manager.CatchUp` | core/managers.go:118-134 | Runs a newcomer through the stages already passed, closing it again on failure |
| `ComponentTable.Manager.Create` | core/managers.go:256-299 | New table is the specified one for: refusal, failed build, new tag, replacement with restore |
| `ComponentTable.Manager.Replace` | core/managers.go:281-298 | Close, build, start and swap, falling back to the recorded recipe |
| `ComponentTable.Manager.Restore` | core/managers.go:303-318 | Rebuilds the old component from its recipe in its old place, or drops it |
| `ComponentTable.Manager.Remove` | core/managers.go:320-349 | Refusal, stand-in for the last outbound, removal |
| `ComponentTable.Manager.Rename` | core/managers.go:361-400 | Unknown or taken tags, refusal, replacement under the new tag |
| `ComponentTable.CreateKeeps` | core/managers.go:256-299 | Distinct tags, index equal to the list, recipes only for held tags, open scopes exactly those of running listed components |
| `ComponentTable.ReplaceKeeps` | core/managers.go:281-318 | The same through every replacement and restore |
| `ComponentTable.RemoveKeeps` | core/managers.go:320-349 | The same through removal |
| `ComponentTable.RenameKeeps` | core/managers.go:361-400 | The same through renaming |
| `ComponentTable.FailedReplacementRestores` | core/managers.go:303-318 | A failed change whose restore works leaves the order of tags and the recipes unchanged |
| `ComponentTable.ReplacementKeepsPlace` | core/managers.go:435-456 | A successful replacement keeps its place and all others untouched |
| `ComponentTable.CreateGoesThrough` | core/managers.go:256-299 | When a create succeeds |
| `ComponentTable.CreatedIsHeld` | core/managers.go:256-299 | Then the tag is held by a new instance of the recipe, listed, recorded and running, and every other tag by the instance it was |
| `ComponentTable.RemoveGoesThrough` | core/managers.go:320-349 | When a removal succeeds |
| `ComponentTable.RemovedIsGone` | core/managers.go:320-349 | Then the instance is in neither list, index, recipes nor scopes, and nothing else moved but a stand-in |
| `ComponentTable.RenamedIsInPlace` | core/managers.go:361-400 | A rename that succeeds leaves nothing of the old tag, and the newcomer in its place |
| `ComponentTable.CreateDefault` | core/managers.go:660-682 | With no route.final the default stays the first listed outbound through every create; an outbound without a tag is turned away |
| `ComponentTable.RemoveDefault` | core/managers.go:660-682 | After a removal the default is the first listed outbound |
| `ComponentTable.Manager.RenameOutbound` | service/outbounds.go:133-148 | Create, remove the old one, take the new one back when that fails |
| `ComponentTable.RenameOutboundKeeps` | service/outbounds.go:133-148 | The table stays valid whichever steps go through |
| `ComponentTable.RenameDefault` | service/outbounds.go:133-148 | With no route.final the default stays the first listed outbound whichever steps go through |
| `ComponentTable.FailedRenameIsUndone` | service/outbounds.go:133-148 | A rename to a free tag that fails leaves list, index, recipes and scopes as they were, unless taking the newcomer back is refused |
| `ComponentTable.RenamedOutboundIsMoved` | service/outbounds.go:133-148 | One to a free tag that succeeds leaves nothing of the old instance, an instance of the recipe under the new tag, and every other one untouched |
| `ComponentTable.CreateFinal` | core/managers.go:660-670 | With route.final set the default is the outbound of that tag, while there is one: through creates |
| `ComponentTable.RemoveFinal` | core/managers.go:671-681 | through removals |
| `ComponentTable.RenameFinal` | core/managers.go:660-682 | and through renames |
| `ComponentTable.RemoveNeverEmpties` | core/managers.go:685-707 | Removing the last outbound leaves a stand-in, never an empty table |
| `ComponentTable.CreateEmpties` | core/managers.go:281-318 | The exact inputs on which a create empties the table; without route.final no default is left |
| `ComponentTable.LastOutboundIsLost` | core/managers.go:684-707 | An edit of the stand-in that builds and does not start is such an input |
| `Instances.ExchangeIsFaithful` | core/managers.go:648-659 | One exchange keeps every resolved dependency iff the newcomer did not find the closed instance and shadows nobody |
| `Instances.ChangeIsFaithful` | core/managers.go:533-544 | Every create, remove or rename keeps every resolution iff it fails or is not risky |
| `Instances.ChangeKeepsRunning` | core/managers.go:713-726 | Every change leaves both tables valid with everything listed started |
| `Instances.NothingDependedOnMoves` | core/managers.go:713-726 | Over any sequence of changes none of which is risky, dependencies resolve to the very instances that were there when their dependents started |
| `Instances.SelfMemberGoesStale` | core/managers.go:648-659 | A component saved with itself as a member, in either table, keeps the instance it replaced |
| `Instances.RenamedOntoItselfGoesStale` | core/managers.go:361-400 | So does an endpoint renamed to one that names its old tag |
| `Instances.OutboundShadowsEndpoint` | core/managers.go:880-885 | An outbound created under the tag of an endpoint somebody depends on changes the resolution |
| `Instances.StandInShadowsEndpoint` | core/box.go:394-402 | Removing the last outbound, with an endpoint called direct that somebody depends on, does too |
| `HotRestart.Restart` | core/managers.go:767-874 | With starts that succeed, a restart from what the box holds gets through iff the box is `Restartable` |
| `HotRestart.RestartableMeans` | core/managers.go:880-885 | Restartable is: no tag in both tables, and the graph of what the two indexes hold closed and acyclic |
| `HotRestart.ExchangeIsRestartable` | core/managers.go:256-299 | One component out, one in: restartable iff the newcomer's tag is free and it names only what stays |
| `HotRestart.ChangeIsRestartable` | core/managers.go:256-400 | Every create, remove or rename keeps a restartable box so iff it fails or is not a breaking one |
| `HotRestart.AlwaysRestartable` | core/managers.go:256-400 | Over any sequence of changes: restartable at every moment iff no change that went through was breaking when it was made |
| `HotRestart.StartedNewcomerIsSafe` | core/managers.go:256-299 | A created component that had to start breaks the restart iff it names itself or its tag is in the other table |
| `HotRestart.MissingTagGoesUnnoticed` | core/managers.go:402-407 | One without a lifecycle is created naming a missing tag, and the restart fails |
| `HotRestart.SelfMemberFailsRestart` | core/managers.go:256-299 | A self-member starts now and fails the restart |
| `CoreLifecycle.StepKeeps` | service/config.go:236-481 | Every atomic step of start, stop, restart, save, retire, reclaim and maintenance keeps the invariant |
| `CoreLifecycle.ReachableKeeps` | service/config.go:236-481 | It holds in every reachable interleaving |
| `CoreLifecycle.RetiredStaysDown` | service/config.go:445-481 | Once RetireCore has returned the core is down until ReclaimCore |
| `CoreLifecycle.MaintenanceStaysDown` | service/maintenance.go:34-75 | Once SetMaintenance(true) has returned, or the panel has come up with maintenance stored on, the core is down whenever the lock is free, also for starts that passed the early check before |
| `CoreLifecycle.NoRestartIsLost` | service/config.go:391-420 | Folding loses no restart: the core read its config after the change, or is down, or a restart or stop is under way |
| `CoreLifecycle.QuietCoreIsCurrent` | service/config.go:548-577 | With nobody in flight a running core carries every change a restart was asked for |
| `CoreLifecycle.StartsAreExclusive` | service/config.go:33-50 | One start at a time, and no commit while a core starts |
| `CoreAlone.StartAlone` | service/config.go:236-306 | Alone, StartCore brings the core up on the stored config exactly when it is not up, not retired and not in maintenance, and otherwise changes nothing |
| `CoreAlone.RestartAlone` | service/config.go:330-350 | RestartCore ends with the core up on the stored config, unless retired or in maintenance |
| `CoreAlone.SaveAndRestartAlone` | service/config.go:396-420 | A save that asks for a restart, and its worker: the change is stored and runs, unless retired or in maintenance |
| `CoreAlone.SaveAlone` | service/config.go:548-577 | A save that asks for none leaves a running core alone and starts one that is down |
| `CoreAlone.StopAlone` | service/config.go:477-481 | StopCore takes the core down and changes nothing else |
| `CoreAlone.MaintenanceAlone` | service/maintenance.go:64-75 | The switch takes the core down and brings it up again |
| `CoreAlone.RetireReclaimStart` | service/config.go:455-475 | Retire, reclaim and start in a row bring the core back |
| `DirtyMarks.ReachableKeeps` | service/nodeSync.go:1145-1180 | Generation, flag, claim and run stay consistent in every interleaving |
| `DirtyMarks.NoEditIsLost` | service/nodeSync.go:488-507 | With check and UPDATE as one step, a marked edit is still flagged or was reconciled from a read that includes it |
| `DirtyMarks.HistoryTells` | service/nodeSync.go:488-507 | What the state says about edits newer than the run's read is what the history of steps says about them |
| `DirtyMarks.ClearIsTheOnlyGap` | service/nodeSync.go:493-496 | As two steps: the UPDATE loses an edit iff one committed after the run's read bumped and wrote since the run's check; no other step does |
| `DirtyMarks.NoSlipNoLoss` | service/nodeSync.go:488-507 | A history in which no UPDATE follows such an edit loses nothing |
| `DirtyMarks.UnmovedClearsLoseNothing` | service/nodeSync.go:488-507 | A history in which every UPDATE still finds the claimed generation loses nothing |
| `DirtyMarks.GenerationIsHistory` | service/nodeSync.go:1145-1173 | The claimed generation is current exactly when nobody bumped it since the claim |
| `DirtyMarks.FinishClearsExactly` | service/nodeSync.go:488-507 | A completed run takes the flag down exactly then, and its read counts as synced either way |
| `DirtyMarks.CheckPassesExactly` | service/nodeSync.go:493-496 | The same with check and UPDATE apart |
| `DirtyMarks.QuietRunCleans` | service/nodeSync.go:415-507 | A run nobody disturbs leaves the node clean and in step with the database |
| `DirtyMarks.MarkRaisesFlag` | service/nodeSync.go:981-988 | A completed mark raises the flag; a failed run leaves it alone |
| `DirtyMarks.TwoStepsLoseAnEdit` | service/nodeSync.go:493-496 | A reachable run that loses one |
| `DirtyMarks.CompletedRunHeals` | service/nodeSync.go:1014-1031 | A completed run has synced every edit marked before it was claimed |
| `Reconcile.ExpectedClients` | service/nodeSync.go:514-575 | Exactly the clients that name an inbound adopted from the node, each with the master's enable, expiry, config and limitIp and its mapped inbound ids |
| `Reconcile.LocalsInOrder` | service/nodeSync.go:544-551 | The mapped ids stand in the order of the client's list |
| `Reconcile.AgreementIsFull` | service/nodeSync.go:622-658 | No difference on a node that reports config and limitIp means equality on every compared field |
| `Reconcile.ActualClusterClients` | service/nodeSync.go:577-597 | The node's rows of the cluster group by name, and no others |
| `Reconcile.PushSettles` | service/nodeSync.go:457-472 | One push settles its name and leaves every other name's standing alone |
| `Reconcile.PushExpected` | service/nodeSync.go:457-472 | Pushes exactly the names that differ, one by one, also when interrupted |
| `Reconcile.DeleteUnexpected` | service/nodeSync.go:473-481 | Deletes exactly the names that are not expected |
| `Reconcile.RunReconcile` | service/nodeSync.go:415-481 | A completed run leaves exactly the expected names, each in its own row with the pushed fields or, where the diff saw nothing, the old ones; no other client is touched; each push takes one name off the list |
| `Reconcile.GroupIsReconciled` | service/nodeSync.go:457-481 | The group row by row, from the pushes made |
| `Reconcile.WhatStaysUnrepaired` | service/nodeSync.go:622-658 | The exact inputs on which a config or a limit stays wrong; all other fields agree |
| `Reconcile.RunTwice` | service/nodeSync.go:415-481 | An interrupted run resumes where it stopped; after a completed one a second run pushes nothing |
| `TrafficFold.CollectNodeTraffic` | service/nodeSync.go:1062-1125 | Rows grow by the positive deltas to the baseline, the baseline becomes the current reading, or nothing changes |
| `TrafficFold.LedgerIsTheMethod` | service/nodeSync.go:1062-1125 | The ledgers of the theorems are the collection's effect on one client, up and down |
| `TrafficFold.NeverOverCounts` | service/nodeSync.go:1080-1125 | Over any run the folded bytes never exceed what the node counted |
| `TrafficFold.SteadyIsExact` | service/nodeSync.go:1080-1125 | Without resets and with the name owned throughout, they match the node's total at the last collection |
| `TrafficFold.CollectionCatchesUp` | service/nodeSync.go:1080-1125 | After a collection nothing is outstanding |
| `IpLimit.PlanIPLimit` | service/iplimit.go:280-329 | Admitted are exactly those with fewer than limit candidates ahead of them, with their seniority; the rest are dropped; the numbers add up |
| `IpLimit.RememberHolders` | service/iplimit.go:348-375 | The record is everything admitted and whoever went quiet within the memory and was not dropped |
| `IpLimit.AdmittedExactly` | service/iplimit.go:280-329 | Exactly min(limit, candidates) are admitted |
| `IpLimit.NoElderIsDropped` | service/iplimit.go:308-329 | Nobody is dropped while a later comer is admitted |
| `IpLimit.UnlimitedDropsNobody` | service/iplimit.go:287-289 | Without a limit nobody is dropped and nobody holds a slot |
| `IpLimit.SeniorityIsKept` | service/iplimit.go:331-347 | While the client stays limited: an address never dropped, with every gap between the scans that find it live within the memory, stays on record with its first rank and the time it was last admitted |
| `IpLimit.DroppedIsForgotten` | service/iplimit.go:344-347 | A dropped address starts over |
| `IpLimit.ScanKeepsCompact` | service/iplimit.go:43-58 | Records carry recent, spaced stamps, each given to at most limit addresses |
| `IpLimit.RecordIsBounded` | service/iplimit.go:54-58 | With a fixed limit and scans at least d apart a record has at most (memory / d + 1) x limit entries |
| `ConnTracker.SameSubscriber` | core/tracker_conn.go:95-105 | Two addresses are one identity iff they are the same v4 address, mapped or not, or share a v6 /64; normalizing twice changes nothing |
| `ConnTracker.Tracker.UserIPs` | core/tracker_conn.go:402-434 | For each wanted user every identity with its oldest connection and its last activity, and nothing else |
| `ConnTracker.Tracker.CloseConnByUserIPs` | core/tracker_conn.go:440-463 | Closes exactly the connections in the drop set and counts them |
| `ConnTracker.CandidatesAreLive` | service/iplimit.go:297-306 | An identity counts iff one of its connections moved bytes within the grace |
| `ConnTracker.ClosedLeaves` | core/tracker_conn.go:440-463 | What stays live is what was live less the dropped |
| `IpEnforce.Limiter.constructor` | service/iplimit.go:119-122 | No bans, no records |
| `IpEnforce.Limiter.PlaceBans` | service/iplimit.go:150-163 | All dropped addresses banned for the TTL, then cut to the cap, latest to expire staying |
| `IpEnforce.Limiter.Sweep` | service/iplimit.go:191-205 | Removes exactly the expired bans and those a scan released |
| `IpEnforce.Limiter.Evict` | service/iplimit.go:209-226 | At most 1024 remain, expired ones go first, then the soonest to expire, and nothing when under the cap |
| `IpEnforce.Limiter.BeginScan` | service/iplimit.go:237-253 | The record, or nothing when it was measured on another tracker |
| `IpEnforce.Limiter.PlanAll` | service/iplimit.go:458-489 | The loop over clients in any order: counts, records, drops and caps of every client, bans in step |
| `IpEnforce.Limiter.Scan` | service/iplimit.go:446-498 | The whole scan as the relation `Scanned` the theorems are about |
| `IpEnforce.Limiter.LoadLimits` | service/iplimit.go:500-522 | Enabled clients with a limit, and which of them a master manages |
| `IpEnforce.WhoIsLimited` | service/iplimit.go:500-522 | Limited are the names with an enabled row that has a limit, each at that of its last such row |
| `IpEnforce.WhoIsInForce` | service/iplimit.go:422-430 | less, during a lease, those with such a row in the cluster group |
| `IpEnforce.GateIsExact` | core/tracker_conn.go:211-216 | Without a lease the gate lets in everything but what is banned now |
| `IpEnforce.Limiter.EnforceIPLimits` | service/iplimit.go:415-498 | All branches: nobody limited clears everything, no tracker keeps the running bans, otherwise a scan |
| `IpEnforce.DueGrows` | service/iplimit.go:150-163 | Placing one client's bans after others is placing all of them |
| `IpEnforce.TrimAgain` | service/iplimit.go:209-226 | Cutting after each client is cutting once |
| `IpEnforce.LatestAgain` | service/iplimit.go:209-226 | and what was cut on the way never outlives what stayed |
| `IpRuns.ScanMeetsLimits` | service/iplimit.go:458-498 | After a scan the non-idle identities still tracked are exactly the admitted ones, min(limit, identities) of them, and the panel is told that number |
| `IpRuns.ScanClosesExactly` | core/tracker_conn.go:440-463 | A scan closes exactly the connections of the identities it dropped: none of a user without a limit, none without an address |
| `IpRuns.FreshBansHold` | service/iplimit.go:170-205 | A ban just placed survives the scan's own sweep; only the cap can cost it, and then the list holds nothing but equally recent bans |
| `IpRuns.IdleBansAreLifted` | service/iplimit.go:170-205 | A ban left after a scan is of a limited client, and of one that fills its limit if placed on this tracker |
| `IpRuns.ScanIsScanRecord` | service/iplimit.go:458-491 | Records of successive scans are those of `IpLimit`, and a new tracker starts from none |
| `IpRuns.SecondScanDropsNothing` | service/iplimit.go:458-498 | A scan straight after a scan drops nobody |
| `IpRuns.StepIsSound` | core/tracker_conn.go:211-216 | Connecting, leaving, restarting, time and scans keep the invariant below |
| `IpRuns.RunsAreSound` | service/iplimit.go:124-163 | At every moment of every run a banned identity has no tracked connection and at most 1024 bans exist |
| `IpRuns.EarlierBanLasts` | service/iplimit.go:183-190 | A ban of an earlier tracker generation is there, unchanged, until its TTL is up, while its client stays limited and the cap is not hit |
| `ClusterIpLimit.Master.constructor` | service/clusterIPLimit.go:27-38 | An empty ledger |
| `ClusterIpLimit.Master.ReadActive` | service/clusterIPLimit.go:273-285 | All identities reported for limited clients, or an error exactly when a report is no address |
| `ClusterIpLimit.Master.Forget` | service/clusterIPLimit.go:288-292 | Drops exactly inactive records older than the memory |
| `ClusterIpLimit.Master.Stamp` | service/clusterIPLimit.go:293-300 | Active identities keep their first time and get a new last one |
| `ClusterIpLimit.Master.Expire` | service/clusterIPLimit.go:301-305 | Drops exactly the bans that ended or whose client is not limited |
| `ClusterIpLimit.Master.TakeSeats` | service/clusterIPLimit.go:334-352 | Down the ranking: seats for the first free ones, everybody else struck, the free ones among them banned |
| `ClusterIpLimit.Master.SeatClient` | service/clusterIPLimit.go:309-352 | One client's turn as a function of the round |
| `ClusterIpLimit.Master.Cut` | service/clusterIPLimit.go:354-373 | Cuts to the cap by end, then client name, then address |
| `ClusterIpLimit.CutIsDetermined` | service/clusterIPLimit.go:354-373 | There is only one list it can leave |
| `ClusterIpLimit.Master.Publish` | service/clusterIPLimit.go:374-380 | The bans that go out: for every client with one, the text of each of its addresses, in order |
| `ClusterIpLimit.SpellOut` | service/clusterIPLimit.go:378-380 | One entry for every address and nothing else, sorted |
| `ClusterIpLimit.Master.PlanLimits` | service/clusterIPLimit.go:272-385 | The whole plan as the relation `Planned`, with counts, lists by seniority and the published bans, or no change when a report cannot be read |
| `ClusterIpLimit.PlanIsDetermined` | service/clusterIPLimit.go:272-385 | Whatever order maps are gone through, the same records, bans, counts and lists come out |
| `ClusterIpLimit.SeatedAreSeats` | service/clusterIPLimit.go:315-352 | Counting down the sorted list is taking the first limit unbanned identities |
| `ClusterIpLimit.SeatsAreFilled` | service/clusterIPLimit.go:322-333 | Bans never leave a slot empty |
| `ClusterIpLimit.CountsAreExact` | service/clusterIPLimit.go:334-352 | Each client's count is min(limit, active identities) |
| `ClusterIpLimit.PlanKeepsDisjoint` | service/clusterIPLimit.go:334-352 | Holders and bans stay disjoint, bans number at most 1024 |
| `ClusterIpLimit.OnlyElderHoldersDisplace` | service/clusterIPLimit.go:315-352 | An active holder loses its slot only to identities that held a record before it and were not banned |
| `ClusterIpLimit.AbsentKeepsItsPlace` | service/clusterIPLimit.go:288-292 | An absent identity keeps its record, unchanged, exactly while the memory lasts |
| `ClusterIpLimit.PlanRenews` | service/clusterIPLimit.go:293-300 | Seen with a seat, a record keeps its first time and gets this one as its last |
| `ClusterIpLimit.RecordIsHistory` | service/clusterIPLimit.go:272-385 | Over any run, an identity never struck and never out of sight longer than the memory is on record with the times of its first and last report; one never reported has no record |
| `ClusterIpLimit.LosersAreBanned` | service/clusterIPLimit.go:334-352 | Whoever is active without a seat is banned, for the full time or the rest of it |
| `ClusterIpLimit.NoStaleBans` | service/clusterIPLimit.go:301-305 | No ban outlives its time or its client's limit, and each is an old one or a new one |
| `ClusterIpLimit.ReportedIsActive` | service/clusterIPLimit.go:273-285 | Every address reported for a limited client is active, and nothing else |
| `ClusterIpLimit.BanLastsWhileFull` | service/clusterIPLimit.go:322-333 | A ban lasts while others fill the limit; otherwise all of the client's bans are lifted before seats are given |
| `ClusterIpLimit.TurnsStayFine` | service/clusterIPLimit.go:142-261 | Over every run of plans, failed attempts and resets: disjoint, bounded, no record younger than the last plan |
| `ClusterIpLimit.FirstComeFirstServed` | service/clusterIPLimit.go:272-385 | Over every run with increasing times, nobody loses a slot to a newcomer or to a formerly banned identity |
| `ClusterIpLimit.Node.constructor` | service/iplimit.go:99-105 | No lease |
| `ClusterIpLimit.Node.AddUser` | service/clusterIPLimit.go:114-130 | Accepts one client's addresses iff all are addresses and the total fits |
| `ClusterIpLimit.Node.ReadBans` | service/clusterIPLimit.go:107-131 | Accepts iff every client is named, every address is one and there are at most 1024, in whatever order they are read |
| `ClusterIpLimit.Node.ApplyClusterBans` | service/clusterIPLimit.go:101-138 | The deny set, the managed clients and the lease are replaced and the banned connections closed, or nothing changes |
| `ClusterIpLimit.LeaseDecides` | service/iplimit.go:126-148 | During the lease the master decides for managed clients and adds to the local bans for others; after it only local bans count |
| `LoginGuard.RefusedByAnyBan` | service/loginguard.go:147-219 | An attempt is refused iff its address, its name or the address's prompts are banned |
| `LoginGuard.WaitIsExact` | service/loginguard.go:196-219 | The wait reported is exact: refused for every moment short of it, free after it |
| `LoginGuard.FailureCountsTwice` | service/loginguard.go:224-240 | A failure counts against its address and its name, once each, and nothing else |
| `LoginGuard.SuccessClears` | service/loginguard.go:302-311 | A success clears address, name and prompts of the attempt, and nothing else |
| `LoginGuard.PromptBudget` | service/loginguard.go:250-270 | Within one window an address is refused after exactly ten times maxFailures prompts, on a row of their own |
| `LoginGuard.ClearedSettingsSwitchOff` | service/loginguard.go:48-55 | With any setting cleared nothing is refused and nothing counted |
| `LoginGuard.BudgetIsEnforced` | service/loginguard.go:91-111 | Within one window exactly the maxFailures-th failure bans |
| `LoginGuard.Guard.constructor` | service/loginguard.go:116-118 | No rows |
| `LoginGuard.Guard.BanRemaining` | service/loginguard.go:196-219 | The longest ban among address, name and prompt rows |
| `LoginGuard.Guard.RecordFailure` | service/loginguard.go:224-240 | Both identities bumped, then swept |
| `LoginGuard.Guard.RecordPrompt` | service/loginguard.go:250-270 | The address's prompt row bumped against ten times the budget |
| `LoginGuard.Guard.RecordSuccess` | service/loginguard.go:302-311 | All rows of the attempt cleared, no others |
| `LoginGuard.Guard.Sweep` | service/loginguard.go:380-388 | Removes exactly the rows without a ban whose window ended a retention ago |
| `LoginGuard.FailureKeepsAlike` | service/loginguard.go:69-111 | Rows that cannot be told apart stay so through a failure |
| `LoginGuard.SweepKeepsAlike` | service/loginguard.go:380-388 | A swept store cannot be told from the unswept one |
| `LoginGuard.MomentKeepsAlike` | service/loginguard.go:196-311 | Every event gives both the same answers and keeps them alike |
| `LoginGuard.SweepIsUnobservable` | service/loginguard.go:380-388 | On every run, whichever sweeps get through, every later refusal and ban is the same |
| `LoginGuard.FailureAccounts` | service/loginguard.go:69-111 | A failure let through is the next of its window or opens one at least min(window, ban) after the last |
| `LoginGuard.AddressIsBounded` | service/loginguard.go:58-111 | Without a success one address gets at most maxFailures x (T / min(window, ban) + 2) failures through in T seconds |
| `LoginGuard.ServedBanStaysDisarmed` | service/loginguard.go:77-90 | Attempts at most a gap apart never lock a name twice when ban and gap fit into the retention |
| `LoginGuard.AttackRenewsTheBan` | service/loginguard.go:77-90 | When they do not fit, an attack with that gap locks it a second time |
| `LoginGuard.DisarmedExactly` | service/loginguard.go:77-90 | So a served ban stays disarmed under all such attempts iff ban and gap fit |
| `StatsTracker.StatsTracker.constructor` | core/tracker_stats.go:87-102 | Balanced, empty books |
| `StatsTracker.StatsTracker.LoadOrCreate` | core/tracker_stats.go:157-165 | A counter exists afterwards, nothing else changes |
| `StatsTracker.StatsTracker.Count` | core/tracker_stats.go:237-262 | Bytes counted between two calls leave every book balanced |
| `StatsTracker.StatsTracker.GetStats` | core/tracker_stats.go:263-298 | With traffic arriving throughout: the rows are exactly what left the counters, all positive, everything counted before the call is in rows after it, and every book still balances |
| `StatsTracker.StatsTracker.Drain` | core/tracker_stats.go:288-296 | Both directions swapped out and booked as drained, bytes in between staying in the counter |
| `StatsTracker.StatsTracker.SampleUsers` | core/tracker_stats.go:361-385 | Deltas are never negative, are exactly what the accounts grow by, and account for everything counted before the call; too short a window changes nothing |
| `StatsTracker.StatsTracker.Read` | core/tracker_stats.go:371-381 | One user's two reads, with traffic in between |
| `StatsTracker.Taken` | core/tracker_stats.go:288-296 | Moving bytes from counter to row and drained book keeps counter + drained - sampled = bytes since the last sample |
| `StatsTracker.ReadKeeps` | core/tracker_stats.go:371-381 | Sampling keeps it too, and the difference is not negative |
| `StatsTracker.Cleared` | core/tracker_stats.go:382-384 | Once all users are read the drained book can be forgotten |
| `ResetCalendar.YearsAgree` | service/client.go:1222-1224 | Month by month, the calendar is the Gregorian one: 365 days a year and one per leap year |
| `ResetCalendar.DatesAgree` | service/client.go:1222-1224 | Every first of the month in closed form |
| `ResetCalendar.NextMonthlyReset` | service/client.go:1234-1254 | The loop returns the first boundary after `from` |
| `ResetCalendar.NextMonthlyIsNext` | service/client.go:1226-1233 | Strictly later, a boundary, and no boundary in between |
| `ResetCalendar.OneBoundaryPerMonth` | service/client.go:1226-1233 | Iterating gives one boundary in every month on min(day, length), so a clamp never sticks |
| `ClientReset.ClientTable.ScheduleNext` | service/client.go:1258-1263 | The next boundary in the client's mode and the panel's zone |
| `ClientReset.ClientTable.StartDelayed` | service/client.go:1486-1519 | Exactly the delayed clients with traffic start, each logged once |
| `ClientReset.ClientTable.RenewDue` | service/client.go:1523-1543 | Exactly the due clients are renewed; those brought back are reported once, with their inbounds |
| `ClientReset.ClientTable.ResetClients` | service/client.go:1480-1571 | The new table row by row: due rows emptied into their totals, in service and next due later, all others with their counters; who was started, who came back, and whether anything was written |
| `ClientReset.TickedIsSettled` | service/client.go:1521-1535 | A reset row's next reset is later than dt, and nobody is due or starting after the pass |
| `ClientReset.SecondPassIsIdle` | service/client.go:1480-1571 | A second pass at dt changes nothing |
| `ClientReset.TicksConserve` | service/client.go:1480-1571 | The same over any number of passes, and no client is disabled or rescheduled by them |
| `ClientReset.PassTouches` | service/client.go:1496-1535 | Whom a pass starts, whom it resets, and that everybody else is left exactly as is |
| `ClientReset.DueIsEmptied` | service/client.go:1528-1542 | A due client's counters are empty, their bytes are in the totals, and it is in service; any other keeps all of that |
| `ClientReset.NextResetLiesAhead` | service/client.go:1258-1263 | The next reset lies a period of days ahead of the pass, or on the first such day of a month after it |
| `ClientReset.EmptyAfterReset` | service/client.go:1480-1571 | Over any passes, once one found the client due its counters are empty and all they held is in the totals |
| `ClientReset.ResetOncePerBoundary` | service/client.go:1521-1535 | After a monthly reset at dt the client is due again iff one of its boundaries after dt has passed |
| `ClientReset.MonthlyPassResets` | service/client.go:1226-1263 | A pass in the next gap between boundaries finds the client due again |
| `ClientReset.NeverMoreThanBoundaries` | service/client.go:1521-1535 | Over any passes a monthly client is reset at most once for each of its boundaries gone by |
| `ClientReset.ExactlyOncePerBoundary` | service/client.go:1521-1535 | With a pass strictly inside every gap between boundaries, exactly once for each |

## Left out

- sing-box itself: building, starting and closing a component are oracles that may fail; the several start stages are one.
- Inbound and service managers: they use the same table without hooks and would add nothing.
- Config parsing, JSON shapes, links and subscriptions; a config is its tag and its dependency tags.
- Transactions are one step on a map of rows; database errors are modelled where the code goes on after them.
- The order of candidates in a tie of Go's map iteration: loops over maps take keys in any order.
- IpEnforce.Limiter.Evict: which of several bans that expire in the same second go first is left open, as in the code.
- ClusterIpLimit.Master.PlanLimits: how an address is spelled is a parameter, so the syntax of addresses is not modelled.
- IpRuns.RunsAreSound: the checks of a connection and of a scan are single steps, and no master's lease is in force; with one, the lease decides and the local bans do not.
- CoreLifecycle: HoldCore and the global traffic reset, which only take the same lock around other work; the pause after a failed start is one of the outcomes a start may have.
- Fetching snapshots from nodes and sending them their bans; a plan starts from what was reported.
- TrafficFold.NeverOverCounts: assumes that a client that leaves the cluster list comes back with zero counters; one that comes back with more would be counted twice.
- DirtyMarks: an edit whose flag could not be written stays unmarked, as in the code, and nothing is promised about it until the hourly run.
- Reconcile: one node with unique names in its cluster group; any push may fail, but why is not modelled; enabling and disabling nodes, replica inbounds and links are not modelled.
- LoginGuard.AddressIsBounded: counts failures recorded while the address is not banned; attempts that passed the check together and are recorded after the ban are not among them.
- LoginGuard: spelling of names and addresses; they arrive normalized. Settings are fixed for a run.
- StatsTracker: Reset, per-target counters and their idle eviction.
- ResetCalendar: daylight saving and other changes of a zone's offset; the offset is fixed.
- ClientReset: 64-bit wrap-around of boundaries; the validation of schedules keeps them far below it.
- normalizeResetSchedule and alignNextReset, which only prepare an edit for storage.
- HTTP handlers, sessions, certificates, migrations, backups, notifications, the command line and the web front end.
