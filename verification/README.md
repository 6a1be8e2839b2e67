# Prism: verified models of its protocols, reconcilers and parsers

Prism is a forwarding control plane with node agents. This project models, in Dafny, the
parts of it whose correctness is about whole runs, every interleaving or every byte string,
and proves what those parts promise. `dafny verify dfyconfig.toml` checks everything.

| area | files |
|---|---|
| traffic accounting | `Traffic`, `TrafficSpool`, `TrafficRecorder`, `TrafficDelivery`, `TrafficProgress`, `TrafficEndToEnd`, `TrafficTotals`, `MetricsCounter`, `CounterConservation` |
| scheduling and reservations | `LeastLoad`, `Reservations` |
| agent registration | `RegistrationStore`, `AgentIdentity`, `Registration`, `RegistrationUse` |
| listener ownership | `Listeners`, `Supervisor`, `PortSegments`, `Admission`, `Deployment`, `ListenerLocks`, `ListenerHolding`, `ListenerFailures`, `LockNames`, `Sockets` |
| DNS failover | `DnsRetirement`, `DnsCleanup`, `DnsSettles`, `DnsReconcile`, `DnsInvalidation`, `DnsBatchInvalidation` |
| configuration versions | `ConfigVersions` |
| wire and text parsers | `Bytes`, `ClientHello`, `HelloReader`, `ProxyText`, `ProxyProtocol`, `Placeholders`, `Text` |

## How the models are built

State that the program updates in place is a class whose methods say what the new state is, by a
function of the old one; protocols are state machines over those functions, with an event for
every step that can interleave, and the main results hold after every run. Loops over Go maps
pick an arbitrary element each time, so results hold for every iteration order. Clocks, random
IDs, bind results, write results and provider answers are parameters or nondeterministic
choices. `net.ParseIP`, textual IPv6 parsing, case folding and case mapping are arbitrary
functions; the little that is used of them is one predicate, `Admission.LibrariesBehave`. A message that was sent may be delivered any
number of times, at any later moment, or never.

## Where the code does not promise more

These are results of the models, each with the exact condition or a concrete run:

- A payload built while the clock has not advanced drops the live increments: conservation holds
  for that call if and only if the clock moved on or nothing was unreported
  (`CounterConservation.PayloadConservesIff`).
- After a failed spool write a crash loses exactly what was queued, or, if the write was to record a
  new report, makes that report count twice; a failed write of an acknowledgement costs nothing
  (`TrafficDelivery.FailedQueueWriteLoses`, `FailedAttachWriteDoubles`, `FailedAckWriteCostsNothing`).
  Without a crash in that state delivery is exactly once, whatever writes fail.
- A connection opened without a reservation keeps the counters exact if and only if its target is
  admitted at that moment; a run is exact throughout if and only if all of them are
  (`Reservations.ExactIffOpensAdmitted`, with a run in `RefusedConnectionMiscounts`).
- Releasing a listener lock reads the file and removes it later without the directory flock.
  Releasing the leftover of a dead process can therefore delete a lock another process has taken
  meanwhile, after which two live processes hold one listener
  (`ListenerHolding.StaleReleaseBreaksExclusion`). A removal is harmless to another process if and
  only if that process does not rely on the file (`RemovalKeepsIff`); releasing only own locks
  always is (`OwnReleasesAreConsiderate`).
- Acquiring anew removes the process's own competing lock files first. When the acquisition then
  fails, the process goes on serving listeners whose locks are gone, and another process can take
  them (`ListenerHolding.FailedReacquisitionBreaksExclusion`). A failing acquisition can cost a lock
  if and only if an acquired listener competes with the plan (`ListenerFailures.PlanMayLoseIff`).
  Without such failures and such removals, acquired listeners are exclusive
  (`ListenerHolding.AcquiredLocksAreExclusive`).
- Two listeners share a lock file if and only if they differ in nothing but the punctuation of the
  address (`LockNames.SameNameIff`), as `::ffff:1.2.3.4` and `::ffff:1:2:3:4` do
  (`AddressesCollide`). Of such a pair at most one lock can be on disk.
- Collecting affected DNS records for several instances with one visited set skips instances within
  eight hops of an earlier one. Exactly which records that leaves out is stated in
  `DnsBatchInvalidation.CompleteIff` and `MissedIff`. It is harmless: the only such collection is
  made when nodes change, and no record left unmarked evaluates differently
  (`DnsBatchInvalidation.BatchCoversEvaluation`).
- Evaluations of one DNS record may overlap. If the record returns to a target that a running
  evaluation may still clean up, the cleanup deletes what the record publishes, and the record says
  APPLIED until that evaluation commits and sets it PENDING (`DnsCleanup.LateCleanupDeletesCurrent`).
  A deletion can follow without a further update if and only if some running evaluation may still
  clean the current target (`DoomedIff`), and over a run that never happens if and only if the
  record never returns like that (`SafeIffNeverReturns`).
- Admission, the forwarder and the dataplane compare addresses as strings, apart from wildcards. Two
  listeners that overlap for none of them share a socket if and only if they spell one address in two
  ways, as `::1` and `0:0:0:0:0:0:0:1` do: such a pair is admitted and passes every overlap test
  (`Sockets.EndpointIffShare`, `ForwardOverlapIffShare`, `OverlapIffShare`, `SpellingsGoUnnoticed`).
- The reader of a version 1 PROXY line stops at the first line feed, so a line with an earlier bare
  line feed is refused although the parser alone takes it (`ProxyProtocol.BareLineFeedIsRefused`).

## Model

| member | source | states |
|---|---|---|
| `Traffic.MergeDeltas` | pkg/core/agent/traffic_spool.go:148-176 | the loop over a map and an order list gives the merge of the normalised deltas, one entry per rule in order of first sight, zero entries dropped; also the payload and server variants |
| `Traffic.MergeConserves` | pkg/core/forward/metrics.go:242-269 | merging keeps every rule's total |
| `Traffic.MergeCleanCanonical` | pkg/core/repo/targets_rules.go:622-650 | the merged list has distinct trimmed non-empty rules and non-negative, non-zero volumes |
| `Traffic.MergeIdempotent` | pkg/core/agent/traffic_spool.go:148-176 | merging a canonical list changes nothing, so a reloaded spool is the written one |
| `TrafficSpool.NodeRuntime.LoadTrafficSpool` | pkg/core/agent/traffic_spool.go:68-95 | first use after a start takes exactly what the file holds, normalised, and drops half an in-flight report |
| `TrafficSpool.NodeRuntime.PersistTrafficSpool` | pkg/core/agent/traffic_spool.go:97-138 | an empty spool removes the file, a failed write leaves the old file |
| `TrafficSpool.NodeRuntime.QueueTrafficDeltas` | pkg/core/agent/traffic_spool.go:23-33 | new deltas are merged into pending and persisted |
| `TrafficSpool.NodeRuntime.AttachTrafficReport` | pkg/core/agent/traffic_spool.go:35-50 | pending becomes the in-flight block under a new ID only when none is in flight; the same report is attached until acknowledged |
| `TrafficSpool.NodeRuntime.AcknowledgeTrafficReport` | pkg/core/agent/traffic_spool.go:52-66 | the acknowledged in-flight report is cleared and the rest persisted; any other acknowledgement changes nothing but what is loaded |
| `TrafficRecorder.RuleTrafficStore.RecordRuleTrafficReport` | pkg/core/repo/targets_rules.go:364-420 | a report ID is counted once; deltas are credited to assigned rules only |
| `TrafficRecorder.RuleTrafficStore.RecordNodeRuleTrafficAssignments` | pkg/core/repo/targets_rules.go:341-362 | the trimmed non-empty rule IDs become assigned |
| `TrafficRecorder.RecordReportEffect` | pkg/core/repo/targets_rules.go:364-420 | for every rule, the counter grows by what the report is worth exactly when the ID is new and the rule assigned |
| `TrafficDelivery.RestartLossless` | pkg/core/agent/traffic_spool.go:68-138 | a crash after a successful write changes nothing: the new process loads the same spool |
| `TrafficDelivery.FailedQueueWriteLoses` | pkg/core/agent/traffic_spool.go:23-33 | a crash after a failed queueing write leaves, per rule, exactly the queued volume missing |
| `TrafficDelivery.FailedAttachWriteDoubles` | pkg/core/agent/traffic_spool.go:35-50 | a crash after a failed attaching write, with the report delivered, leaves exactly its volume counted twice |
| `TrafficDelivery.FailedAckWriteCostsNothing` | pkg/core/agent/traffic_spool.go:52-66 | a crash after a failed acknowledging write keeps everything counted once |
| `TrafficDelivery.ExactlyOnce` | pkg/core/agent/traffic_spool.go:23-138 | over every run with lost, repeated and late reports and acks, failing writes, and crashes at any moment when no failed queue or attach write is outstanding: server counter + dropped for unassigned rules + outstanding = queued, per rule |
| `TrafficDelivery.ExactlyOnceForAssignedRule` | pkg/core/handler/agent_ws.go:465-486 | for an assigned rule, server counter + pending + in flight if unrecorded = everything queued |
| `TrafficProgress.AckClears` | pkg/core/agent/traffic_spool.go:52-66 | an acknowledgement of the report in flight leaves nothing in flight and the pending block as it was |
| `TrafficProgress.SendOffers` | pkg/core/agent/traffic_spool.go:35-50 | what is sent is the report in flight, or else everything pending under the new ID |
| `TrafficProgress.TwoRoundsDrain` | pkg/core/handler/agent_ws.go:465-486 | from every clean reachable state, sending, delivering and acknowledging at most two reports leaves nothing outstanding for any rule |
| `TrafficProgress.EverythingArrives` | pkg/core/agent/traffic_spool.go:23-138 | after every run without an unwritten change, at most six more events bring the counter of an assigned rule to exactly what was queued |
| `TrafficTotals.WorthIsSum` | pkg/core/agent/traffic_spool.go:148-176 | what a list is worth for a rule is, number by number, the sum over the deltas whose trimmed rule matches, negative numbers counting as zero |
| `TrafficTotals.EveryByteArrives` | pkg/core/repo/targets_rules.go:364-420 | the same as EverythingArrives for each of the four numbers, against a plain sum over the queueing events of the run |
| `TrafficEndToEnd.LifeBalances` | pkg/core/forward/metrics.go:167-290 | what one process life reported, counted as spool and server count it, plus what it still held, is what it accepted |
| `TrafficEndToEnd.EverythingAcceptedIsAccountedFor` | pkg/core/handler/agent_ws.go:465-486 | over all process lives, counters, spool, link and recorder: accepted = server + spool + still in memory |
| `MetricsCounter.Metrics.QueueFinalInactiveTargetDelta` | pkg/core/forward/metrics.go:132-147 | the last unreported gain of a pruned target goes to pending |
| `MetricsCounter.Metrics.PruneInactiveTargets` | pkg/core/forward/metrics.go:114-130 | for every iteration order, inactive closed targets go with their baselines and their gains are queued |
| `MetricsCounter.Metrics.SetActiveTargets` | pkg/core/forward/metrics.go:65-72 | the active set is replaced and the inactive are pruned |
| `MetricsCounter.Metrics.PruneClosedInactiveTarget` | pkg/core/forward/metrics.go:495-501 | closing the last thing open on an inactive target prunes it |
| `MetricsCounter.Metrics.Target` | pkg/core/forward/metrics.go:319-330 | a counter is created only for admitted keys |
| `MetricsCounter.Metrics.AddTargetTraffic` | pkg/core/forward/metrics.go:510-532 | bytes and packets are added to admitted targets only |
| `MetricsCounter.Metrics.AddTargetTCPConnection` | pkg/core/forward/metrics.go:332-352 | opens count events, closes clamp at zero and may prune |
| `MetricsCounter.Metrics.ReserveTargetTCPDial` | pkg/core/forward/metrics.go:354-363 | a reservation is granted exactly for admitted targets |
| `MetricsCounter.Metrics.ReleaseTargetTCPDial` | pkg/core/forward/metrics.go:415-428 | a release needs a counter, clamps at zero and may prune |
| `MetricsCounter.Metrics.PromoteTargetTCPDial` | pkg/core/forward/metrics.go:430-444 | a reservation becomes a connection, whatever the configuration says meanwhile |
| `MetricsCounter.Metrics.TargetOpenConnections` | pkg/core/forward/metrics.go:411-413 | the load of a target counts connections, sessions and reservations |
| `MetricsCounter.Metrics.ReserveLeastLoadTargetTCPDial` | pkg/core/forward/metrics.go:365-386 | the pick is made and reserved on the same state |
| `MetricsCounter.Metrics.AgentPayload` | pkg/core/forward/metrics.go:167-240 | prunes, reports pending and live gains, and moves the baseline |
| `MetricsCounter.Metrics.LiveTargetDeltas` | pkg/core/forward/metrics.go:167-240 | one delta per reportable target that gained something, and none when the clock did not advance |
| `MetricsCounter.PruneKeepsOthers` | pkg/core/forward/metrics.go:114-130 | pruning touches no other target and leaves none that should go |
| `MetricsCounter.LoadCountsEverything` | pkg/core/forward/metrics.go:411-413 | the load of a target is the sum of its connections, sessions and reservations of both protocols |
| `MetricsCounter.ChangesMoveLoad` | pkg/core/forward/metrics.go:332-444 | each change moves the load by what it opens or closes; a promotion and traffic do not move it |
| `MetricsCounter.ConfigKeepsExactly` | pkg/core/forward/metrics.go:65-130 | after a configuration exactly the counters remain that are active or in use |
| `CounterConservation.PruneKeepsHeld` | pkg/core/forward/metrics.go:114-147 | pruning in any order keeps pending + unreported for every rule |
| `CounterConservation.TouchKeeps` | pkg/core/forward/metrics.go:319-352 | an update adds exactly its accepted volume |
| `CounterConservation.PayloadReports` | pkg/core/forward/metrics.go:167-240 | a payload reports everything held, or everything but the live gains when the clock stood still |
| `CounterConservation.CounterConservation` | pkg/core/forward/metrics.go:65-290 | over every run: reported + pending + unreported = accepted, per rule, across deactivation, pruning and reactivation |
| `CounterConservation.PayloadConservesIff` | pkg/core/forward/metrics.go:167-240 | one payload conserves if and only if the clock advanced or nothing live was unreported |
| `TrafficTotals.ReportedIsMoved` | pkg/core/forward/metrics.go:65-290 | over every run, after a report the numbers handed to the spool are exactly those the updates carried to targets that were configured or already counted |
| `TrafficTotals.ConfigTakesExactly` | pkg/core/forward/metrics.go:65-72 | after a configuration traffic is taken for exactly the targets it names and those something is still open on |
| `LeastLoad.PickIsFirstMinimum` | pkg/core/forward/metrics.go:365-386 | with positive weights the cross-multiplied loop returns the first target of minimal load per weight |
| `LeastLoad.PickMinimisesLoad` | pkg/core/forward/metrics.go:365-386 | no candidate has a smaller load per weight, and every earlier one a larger |
| `LeastLoad.OpenConnectionsForTargets` | pkg/core/forward/metrics.go:96-112 | the snapshot gives every named target's current load |
| `LeastLoad.SelectLeastLoadTargetGroupEndpoint` | pkg/core/forward/target_selection.go:55-71 | the snapshot-based selector picks the same target as the reserving loop |
| `LeastLoad.EnabledLeastLoadTargetGroupCandidates` | pkg/core/forward/target_selection.go:96-117 | the candidates are the usable members of the best priority that has any, with positive weights |
| `LeastLoad.CandidateIff` | pkg/core/forward/target_selection.go:96-117 | a target is usable in a bucket if and only if some enabled member with positive weight is it |
| `LeastLoad.UsableExactly` | pkg/core/forward/target_selection.go:96-117 | the usable targets of a bucket are its enabled members with positive weight, in order, each at its own place |
| `LeastLoad.ArrivalsAreFair` | pkg/core/forward/metrics.go:365-413 | from empty, arrivals only: (c_i - 1) * w_j <= c_j * w_i for all i, j after every run |
| `Reservations.CountersAreExact` | pkg/core/forward/metrics.go:332-444 | after every run whose unreserved opens met admitted targets, a key's reservations and connections equal its pending dials and live connections, and it is not pruned while either exists |
| `Reservations.NoClampFires` | pkg/core/forward/metrics.go:332-444 | in such runs no counter is ever cut at zero |
| `Reservations.OpenUnreservedExactIff` | pkg/core/forward/supervisor.go:426-432 | an open without a reservation keeps the counters exact if and only if the target is admitted |
| `Reservations.ExactIffOpensAdmitted` | pkg/core/forward/supervisor.go:426-436 | a run is exact at every moment if and only if each such open met an admitted target |
| `Reservations.RefusedConnectionMiscounts` | pkg/core/forward/supervisor.go:426-436 | a run that ends with one live connection and a count of zero |
| `RegistrationStore.ControlService.ClaimRegistrationToken` | pkg/core/repo/agents_audit.go:84-95 | a token is claimed once, if unrevoked and unexpired |
| `RegistrationStore.ControlService.ActivateCredential` | pkg/core/repo/agents_audit.go:191-201 | only a pending unrevoked credential is activated |
| `RegistrationStore.ControlService.RevokeCredential` | pkg/core/repo/agents_audit.go:215-227 | only a pending credential is revoked this way |
| `RegistrationStore.ControlService.AuthenticateAgentCredential` | pkg/core/service/control_agent_auth.go:131-176 | a revoked credential is refused; a pending one logs in by claiming its token and activating; an activated one as it is |
| `RegistrationStore.ControlService.AuthenticateRegistrationToken` | pkg/core/service/control_agent_auth.go:181-260 | a token with a fresh pending credential is refused, a stale one is replaced, a new one issued |
| `RegistrationStore.ControlService.FinalizeAgentRegistrationDelivery` | pkg/core/service/control_agent_auth.go:277-327 | claim, activate and revoke the others in one step or not at all |
| `RegistrationStore.ControlService.ReleaseAgentRegistrationCredential` | pkg/core/service/control_agent_auth.go:372-419 | a disconnect revokes an unacknowledged pending credential only |
| `RegistrationStore.RegistrationSafety` | pkg/core/service/control_agent_auth.go:131-327 | over every run: a token activates at most one credential and is then used, at most one credential is active and unrevoked, at most one is pending per token |
| `RegistrationUse.AcceptedIffLive` | pkg/core/service/control_agent_auth.go:131-176 | a login is accepted if and only if its credential is live afterwards, and then no other is |
| `RegistrationUse.RevokedNeverLogsIn` | pkg/core/service/control_agent_auth.go:131-176 | from the moment a credential is revoked no run leads to an accepted login with it |
| `RegistrationUse.AcceptedLoginIsLive` | pkg/core/service/control_agent_auth.go:131-176 | over every run an accepted login names the one credential that is live then |
| `RegistrationUse.UsedWhileValid` | pkg/core/repo/agents_audit.go:84-95 | over every run a token becomes used only by a message that arrives while it is unrevoked and unexpired |
| `RegistrationUse.PendingBlocksFiveMinutes` | pkg/core/service/control_agent_auth.go:421-427 | a token with a pending credential is accepted exactly from three hundred seconds after its creation on |
| `RegistrationUse.ReleaseFreesToken` | pkg/core/service/control_agent_auth.go:372-419 | after a release the token is accepted again at once |
| `RegistrationUse.TokenRegisters` | pkg/core/service/control_agent_auth.go:181-327 | a claimable token registers: its new credential ends up the only live one and the token used |
| `RegistrationUse.NewTokenReplaces` | pkg/core/service/control_agent_auth.go:36-95 | a new token can be claimed until it expires, and the unused ones of the agent no more; nor can a revoked one |
| `RegistrationUse.BootPresentsExactly` | pkg/core/agent/runtime_config.go:33-150 | what an agent that reads its file can present after a restart |
| `RegistrationUse.RevokedIsNeverLetIn` | pkg/core/service/control_agent_auth.go:131-327 | over every run of agent, server and link, no connection is let in on a credential that was revoked before |
| `RegistrationUse.HandshakeCompletes` | pkg/core/agent/runtime_client.go:309-453 | from every reachable state in which the agent can present a claimable token and no fresh credential is pending for it, five steps register it: store, file and memory then agree on the one live credential, and the token is used and no longer presented |
| `AgentIdentity.NodeRuntime.HandleRegistrationSuccess` | pkg/core/agent/runtime_client.go:413-453 | the credential is on disk before the acknowledgement is sent |
| `AgentIdentity.NodeRuntime.FinalizeCredential` | pkg/core/agent/runtime_client.go:686-704 | what a confirmation changes in memory and on disk, however far it got |
| `AgentIdentity.BootPresentsStored` | pkg/core/agent/runtime_config.go:33-150 | after a restart the agent can only present the credential it has stored |
| `Registration.StepKeepsInv` | pkg/core/agent/runtime_client.go:269-331 | every step of agent, server and link keeps the handshake's invariant |
| `Registration.UsedTokenIsStored` | pkg/core/service/control_agent_auth.go:277-427 | over every run with lost connections, late acks, releases, stale pendings and restarts: a used token means its only activated credential is live and is the one on the agent's disk |
| `Listeners.GroupRulesByListener` | pkg/core/forward/supervisor.go:638-653 | a listener exists exactly for the keys some enabled rule is served by, with exactly those rules in order; an enabled rule that is not DIRECT is an error |
| `Listeners.ServingIff` | pkg/core/forward/supervisor.go:638-667 | a listener serves exactly the enabled rules on its address and port that are for its protocol or for both |
| `Supervisor.Supervisor.StopOverlappingAbsentListeners` | pkg/core/forward/supervisor.go:167-185 | exactly the absent listeners in the way are stopped, and listed with their rules |
| `Supervisor.Supervisor.RestoreStoppedListeners` | pkg/core/forward/supervisor.go:187-199 | restores with the old rules until a bind is refused |
| `Supervisor.Supervisor.OverlapsAnyListener` | pkg/core/forward/supervisor.go:201-208 | found exactly when some key overlaps |
| `Supervisor.Supervisor.ValidateNoOverlappingListeners` | pkg/core/forward/supervisor.go:210-223 | accepts exactly the sets in which no two different keys overlap |
| `Supervisor.Supervisor.Apply` | pkg/core/forward/supervisor.go:115-165 | no two overlapping listeners are ever bound; success leaves exactly the configured listeners with their rules, kept sockets kept; rejection changes nothing; a failed bind leaves the old keys and rules if the restore succeeds, and undisturbed listeners in any case |
| `Supervisor.ApplyAll` | pkg/core/forward/supervisor.go:115-246 | the same over any sequence of configurations from a new supervisor |
| `PortSegments.NormalizeRulePortSegments` | pkg/core/service/control_rule_helpers.go:663-697 | sorted, disjoint segments covering exactly the requested ports, or nothing when any segment is invalid |
| `PortSegments.ExpandRulePortSegments` | pkg/core/service/config_compiler.go:240-267 | the nested loops produce the expansion |
| `PortSegments.ExpandedExactly` | pkg/core/service/config_compiler.go:240-267 | normalised segments expand to one rule per covered port, each port once |
| `PortSegments.SegmentMeans` | pkg/core/service/control_rule_helpers.go:663-697 | which ports one requested segment covers |
| `Admission.ValidateInboundBindingConflict` | pkg/core/domain/rules.go:44-86 | accepted exactly when the shape is valid and no existing binding clashes; otherwise the first clash |
| `Admission.BindingsForNodes` | pkg/core/service/control_rules.go:876-884 | one binding per node and segment |
| `Admission.RuleStore.EnsureNoRuleConflicts` | pkg/core/service/control_rules.go:856-874 | accepted exactly when the candidate coexists with every other stored rule |
| `Admission.ValidatedIsCanonical` | pkg/core/service/control_rule_helpers.go:489-596 | whatever passes input validation on a literal address is in canonical form: trimmed, lower-case name, NONE, V1 or V2 |
| `Admission.ValidatedIff` | pkg/core/service/control_rule_helpers.go:489-596 | exactly which inputs are accepted |
| `Admission.ValidatedFields` | pkg/core/service/control_rule_helpers.go:489-596 | what is stored: host name, address, match type and PROXY setting of the input, trimmed and in the right case |
| `Admission.ValidateListenIPs` | pkg/core/validator/control_node_defaults.go:9-45 | node addresses are distinct literals; refused exactly for a non-literal or a repetition |
| `Admission.RuleStore.ValidateEnabledRulesForNodeSet` | pkg/core/service/control_rule_helpers.go:73-118 | on a changed node set every rule moves to its group's nodes, is covered there, and the rules stay sound; otherwise refused |
| `Admission.RuleStore.SaveNode` | pkg/core/service/control_nodes.go:295-335 | a node change keeps valid addresses, group membership and soundness of the stored rules, or changes nothing |
| `Admission.RuleStore.DeleteNode` | pkg/core/service/control_nodes.go:495-508 | the same for a deleted node |
| `Admission.NodesInGroup` | pkg/core/service/control_rule_helpers.go:120-131 | exactly the nodes that are in the group |
| `Admission.NodesCoverListenIP` | pkg/core/service/control_rule_helpers.go:219-236 | true exactly when there are nodes and all listen on that address |
| `Admission.RuleStore.Save` | pkg/core/service/control_rules.go:803-897 | a stored rule is the validated input, covers exactly the requested ports, is canonical, and any two stored rules coexist |
| `Admission.ClashSymmetric` | pkg/core/domain/rules.go:44-140 | the verdict does not depend on which binding came first |
| `Admission.DisjointRulesCoexist` | pkg/core/domain/rules.go:44-140 | rules with no common node, no common protocol or no common port are never refused for each other |
| `Admission.CrossCompatible` | pkg/core/domain/rules.go:60-152 | two admitted rules on one node meet at a port only as SNI rules of one TCP listener with one PROXY setting and different names |
| `Admission.CompileCompatible` | pkg/core/service/config_compiler.go:240-267 | the compiled rules of a node are pairwise compatible |
| `Deployment.ReorderCompatible` | pkg/core/service/config_compiler.go:240-267 | so is every reordering of them |
| `Deployment.ForwarderAccepts` | pkg/core/forward/supervisor.go:210-246 | compatible rules pass grouping and the overlap check |
| `Deployment.SelectSNIRule` | pkg/core/forward/supervisor.go:678-710 | the first SNI rule matching the host name, none if there is none |
| `Deployment.SniInboundProxyProtocol` | pkg/core/forward/supervisor.go:721-739 | a version exactly when there are SNI rules and they agree |
| `Deployment.ListenersWellServed` | pkg/core/forward/supervisor.go:669-746 | a listener has one rule or only SNI rules with one PROXY setting and at most one match per host name, in any order |
| `Deployment.ListenerConflictDetail` | pkg/core/dataplane/manager.go:435-479 | reports a conflict exactly for mixed dataplanes, one SNI under two rules, a shared ANY_INBOUND, or mixed PROXY settings |
| `Deployment.ConflictIffPair` | pkg/core/dataplane/manager.go:435-479 | comparing with the first entry and collecting names finds a conflict exactly when some two entries cannot share a listener |
| `Deployment.DetectListenerConflicts` | pkg/core/dataplane/manager.go:394-433 | silent exactly when no key and no overlapping pair is in conflict; which pairs overlap is stated on sockets in Sockets.OverlapIffShare |
| `Deployment.DataplaneAccepts` | pkg/core/dataplane/manager.go:394-500 | compatible canonical rules on one dataplane give no conflict detail |
| `Deployment.AdmittedRulesDeploy` | pkg/core/domain/rules.go:44-140 | admission implies deployability: whatever the rule store holds, after any rule and node changes, deploys, for every node and every order |
| `Deployment.AdmittedPairIff` | pkg/core/domain/rules.go:60-86 | which pairs of SNI rules on one port the bare admission check accepts, in any spelling |
| `Deployment.OverlapWithoutEqualityIff` | pkg/core/forward/supervisor.go:229-246 | for such a pair the forwarder sees different overlapping listeners exactly for two spellings of a wildcard; stored rules have one |
| `Deployment.ConflictIffSpelling` | pkg/core/dataplane/manager.go:435-479 | for such a pair the dataplane objects exactly to different trimmed PROXY settings or equal lower-cased names; stored rules have neither |
| `ListenerLocks.CheckedEntry` | pkg/core/dataplane/locks.go:71-118 | what the directory check lets stand or removes is the process's own or a dead one's |
| `ListenerLocks.EntryDecision` | pkg/core/dataplane/locks.go:71-118 | which existing lock files are skipped, removed or refused |
| `ListenerLocks.OccupantDecision` | pkg/core/dataplane/locks.go:267-309 | when the file in the way of a new lock is removed |
| `ListenerLocks.WriteLock` | pkg/core/dataplane/locks.go:267-309 | writing a checked lock keeps live processes' files apart |
| `ListenerLocks.StepKeepsInv` | pkg/core/dataplane/locks.go:18-118 | every step of every process keeps the invariant, including crashes, restarts, ID reuse and unlocked releases |
| `ListenerLocks.LockFilesNeverCompete` | pkg/core/dataplane/locks.go:18-118 | over every run, lock files of two different live processes never have overlapping keys; on sockets in Sockets.LockFilesShareNoSocket |
| `ListenerHolding.AcquiredLocksAreExclusive` | pkg/core/dataplane/locks.go:18-118 | over every run whose removals take nothing another process relies on, whose plans have separate lock files and whose failed acquisitions dropped none: listeners acquired by two live processes never overlap, at any moment, and outside an acquisition they are recorded on disk |
| `ListenerHolding.RemovalKeepsIff` | pkg/core/dataplane/locks.go:257-265 | a release leaves another process with all it relies on if and only if it does not rely on the removed file |
| `ListenerHolding.OwnReleasesAreConsiderate` | pkg/core/dataplane/locks.go:257-265 | runs whose releases only read own locks meet that condition |
| `ListenerHolding.StepKeeps` | pkg/core/dataplane/locks.go:71-118 | every step keeps the account of which acquired locks are on disk and which the process dropped itself |
| `ListenerFailures.PlanMayLoseIff` | pkg/core/dataplane/manager.go:73-77 | a failing acquisition of a plan can leave the process without a lock it relies on if and only if an acquired listener competes with the plan |
| `ListenerHolding.FailedReacquisitionBreaksExclusion` | pkg/core/dataplane/locks.go:91-104 | a run without any release in which a failed re-acquisition lets two live processes hold one listener |
| `ListenerHolding.StaleReleaseBreaksExclusion` | pkg/core/dataplane/locks.go:257-265 | a run in which one release of a dead process's lock lets two live processes hold one listener |
| `LockNames.NameOfOrdinary` | pkg/core/dataplane/sanitize.go:9-34 | what the lock file of a TCP or UDP listener is called |
| `LockNames.SameNameIff` | pkg/core/dataplane/sanitize.go:9-34 | two listeners share a lock file if and only if protocol, port and the address up to punctuation agree |
| `LockNames.AddressesCollide` | pkg/core/dataplane/locks.go:36-45 | two different addresses whose listeners share one |
| `Sockets.OverlapIffShare` | pkg/core/dataplane/manager.go:481-500 | two literal keys overlap if and only if they share a socket and do not spell one address in two ways |
| `Sockets.LockFilesShareNoSocket` | pkg/core/dataplane/locks.go:18-118 | over every run, lock files of two live processes share a socket only through two spellings of an address |
| `Sockets.AcquiredShareNoSocket` | pkg/core/dataplane/locks.go:18-118 | the same for the listeners two live processes have acquired, in considerate runs |
| `Sockets.SharedSocketIsReported` | pkg/core/dataplane/manager.go:394-433 | an ANY_INBOUND rule that shares a socket with another planned rule is reported, two spellings apart |
| `Sockets.ForwardOverlapIffShare` | pkg/core/forward/supervisor.go:229-246 | the forwarder finds every shared socket but those of two spellings, and nothing else |
| `Sockets.SafeIffNoSharedSocket` | pkg/core/forward/supervisor.go:210-246 | a set of listeners passes if and only if two of them share a socket only through two spellings |
| `Sockets.EndpointIffShare` | pkg/core/domain/rules.go:96-152 | admission takes two bindings for one endpoint exactly when they share a socket on a node, two spellings apart |
| `Sockets.SpellingsGoUnnoticed` | pkg/core/domain/rules.go:129-152 | two spellings of one address: both rules are admitted and no overlap test fires |
| `DnsRetirement.ManagedRecord.UpdateDNSManagedRecord` | pkg/core/service/control_dns_policy.go:92-146 | moving a record with applied values retires the old target; a conflicting target is refused |
| `DnsRetirement.ManagedRecord.CommitDNSManagedRecordEvaluation` | pkg/core/service/control_dns_policy.go:793-921 | a commit on an unchanged record stores the outcome; on a changed one it retires what it wrote |
| `DnsRetirement.CommitRemembers` | pkg/core/service/control_dns_policy_cleanup.go:117-189 | a commit, current or stale, leaves no written target unaccounted for |
| `DnsRetirement.NoForgottenTarget` | pkg/core/service/control_dns_policy.go:793-921 | over every interleaving of evaluations and updates: a target holding values is current with applied values, listed for retirement, or being written; the current target is never in its own list |
| `DnsCleanup.StepThreatensIff` | pkg/core/service/control_dns_policy.go:92-146 | of all steps only an update can put the current target in reach of a running cleanup, exactly one that returns to a target that may still be cleaned |
| `DnsCleanup.DoomedIff` | pkg/core/service/control_dns_policy.go:793-921 | some continuation without an update deletes the current target's values if and only if a running evaluation may still clean it |
| `DnsCleanup.SafeIffNeverReturns` | pkg/core/service/control_dns_policy.go:793-921 | over every run, no moment is open to such a deletion if and only if the record never returns to a target that may still be cleaned |
| `DnsCleanup.CleanupSparesCurrent` | pkg/core/service/control_dns_policy.go:793-921 | in such runs no cleanup deletes the current target's values |
| `DnsCleanup.LateCleanupDeletesCurrent` | pkg/core/service/control_dns_policy.go:793-921 | a run after which the record is APPLIED with values on file and nothing at the provider, until the late evaluation's commit sets it PENDING |
| `DnsSettles.EvaluationSettles` | pkg/core/service/control_dns_policy.go:793-921 | from every quiet reachable state one evaluation whose calls succeed leaves exactly its values at the provider, nothing to retire and the record APPLIED |
| `DnsSettles.CommitStatus` | pkg/core/service/control_dns_policy.go:793-921 | what a commit on an unchanged record stores, outcome by outcome |
| `DnsSettles.StaleCommitAbsorbs` | pkg/core/service/control_dns_policy.go:793-921 | a commit on a changed record sets PENDING and records the values written or retires their target |
| `DnsReconcile.NormalizeStringSet` | pkg/core/dns/provider.go:305-317 | the distinct trimmed non-empty values |
| `DnsReconcile.Provider.ReconcileOne` | pkg/core/dns/provider.go:104-127 | one existing record is kept, repurposed or deleted, and what is already placed stays placed once |
| `DnsReconcile.Provider.ReconcileExisting` | pkg/core/dns/provider.go:100-127 | whatever the order, what is left holds exactly the values no longer remaining |
| `DnsReconcile.Provider.ApplyRecord` | pkg/core/dns/provider.go:72-136 | afterwards each desired value is held exactly once, every record has the requested proxying and the TTL 1 if proxied, the given one if positive, or 60, unless the provider never reported one, and nothing else is held; a settled provider gets no call; exactly the listed inputs are refused and change nothing |
| `DnsReconcile.ApplyTwice` | pkg/core/dns/provider.go:72-144 | the second run issues no mutation |
| `DnsInvalidation.Collector.CollectReferencing` | pkg/core/service/control_dns_policy_runtime.go:246-274 | the recursion with its shared visited set, terminating on cycles |
| `DnsInvalidation.CollectSound` | pkg/core/service/control_dns_policy_runtime.go:246-274 | only records that reach the instance are collected |
| `DnsInvalidation.ChainIsCollected` | pkg/core/service/control_dns_policy_runtime.go:246-274 | a reference chain within the depth limit is never cut by the visited set |
| `DnsInvalidation.AffectedExactly` | pkg/core/service/control_dns_policy_runtime.go:238-274 | collected if and only if some instance of the record reaches the changed one in one to nine hops |
| `DnsInvalidation.OutOfReachIsUnread` | pkg/core/service/control_dns_policy_evaluation.go:199-252 | an instance that does not reach `x` evaluates the same whatever happens to `x` |
| `DnsInvalidation.InvalidationCoversEvaluation` | pkg/core/service/control_dns_policy_evaluation.go:199-252 | no instance of an uncollected record evaluates differently after the change, errors included |
| `DnsInvalidation.EvaluationYields` | pkg/core/service/control_dns_policy_evaluation.go:199-252 | along a chain of enabled references within the depth limit an instance yields what the last one does |
| `DnsBatchInvalidation.MarkDepending` | pkg/core/service/control_dns_policy_runtime.go:276-309 | the loop marks the instances' own records and what the turn-by-turn collection gives |
| `DnsBatchInvalidation.BatchCoversEvaluation` | pkg/core/service/control_dns_policy_evaluation.go:199-252 | however the nodes change what the listed instances yield, no enabled instance of an unmarked record evaluates differently |
| `DnsBatchInvalidation.CollectAllIsUnion` | pkg/core/service/control_dns_policy_runtime.go:276-309 | the collection for a list is the union of what each instance not yet visited at its turn affects |
| `DnsBatchInvalidation.ExploredExactly` | pkg/core/service/control_dns_policy_runtime.go:276-309 | an instance is skipped if and only if it is, or is within eight hops of, an earlier one that was not |
| `DnsBatchInvalidation.CompleteIff` | pkg/core/service/control_dns_policy_runtime.go:276-309 | no record reaching a listed instance is left out if and only if each one reaching a skipped instance is a listed instance's own or reaches one not skipped, all on the reference graph |
| `DnsBatchInvalidation.VisitedExactly` | pkg/core/service/control_dns_policy_runtime.go:246-274 | visited are the instance itself and exactly those that reach it within eight hops |
| `DnsBatchInvalidation.MissedIff` | pkg/core/service/control_dns_policy_runtime.go:276-309 | for two instances, a record is missed if and only if the second is within eight hops of the first, and the record within nine of the second but not of the first |
| `DnsBatchInvalidation.RecordTenIsLeftOut` | pkg/core/service/control_dns_policy_runtime.go:276-309 | eleven instances in a row, 0 and 5 listed: the record of 10 reaches 5 and is left out; its evaluation is refused past depth eight |
| `ConfigVersions.NodeStore.IncrementDesiredConfigForNode` | pkg/core/repo/nodes.go:401-426 | the version passes both desired and applied, status pending; a missing node is reported |
| `ConfigVersions.NodeStore.IncrementDesiredConfigForNodeGroup` | pkg/core/repo/nodes.go:428-456 | the same for every node of the group and no other |
| `ConfigVersions.NodeStore.EnsureDesiredConfigVersionAtLeast` | pkg/core/repo/nodes.go:382-399 | raises only, and then back to pending |
| `ConfigVersions.NodeStore.RecordNodeConfigAck` | pkg/core/repo/nodes.go:312-380 | only versions between applied and desired count; only the desired one settles the status; what the status then means is StatusMeans |
| `ConfigVersions.NodeStore.CompileNodeAgentConfig` | pkg/core/service/control_agent_config.go:493-558 | the snapshot carries exactly the stored desired version, the maximum of desired, compiled and rule versions |
| `ConfigVersions.MaxRuleRecordConfigVersion` | pkg/core/service/control_agent_config.go:578-586 | the largest rule version, at least zero |
| `ConfigVersions.RunKeepsVersions` | pkg/core/repo/nodes.go:312-456 | over every run with arbitrary acks: applied never passes desired, APPLIED means equal |
| `ConfigVersions.VersionsNeverDecrease` | pkg/core/repo/nodes.go:312-456 | between any two moments of a run no version goes down |
| `ConfigVersions.AppliedMeansCurrentRules` | pkg/core/service/control_agent_config.go:493-558 | when agents acknowledge only what they received, APPLIED means a snapshot of the current rules was acknowledged |
| `ConfigVersions.StatusIsHistory` | pkg/core/repo/nodes.go:312-456 | over every run the status of a node is what the last event that counted for it decides, or the one it started with |
| `ConfigVersions.StatusMeans` | pkg/core/repo/nodes.go:312-380 | APPLIED if and only if that was a successful ack of the current desired version, FAILED if and only if it was a failed one, otherwise PENDING |
| `ConfigVersions.AcknowledgedSnapshotSettles` | pkg/core/service/control_agent_config.go:493-558 | from every reachable state, compiling and acknowledging the snapshot gives APPLIED with applied equal to desired |
| `ConfigVersions.NewVersions` | pkg/core/repo/nodes.go:382-456 | which desired version each kind of change leaves |
| `ClientHello.ParseClientHelloSNI` | pkg/core/forward/supervisor.go:792-845 | the cursor stays in range on arbitrary bytes and computes the suffix reading |
| `ClientHello.ParseSNIExtension` | pkg/core/forward/supervisor.go:847-870 | the same for the server_name extension |
| `ClientHello.HelloRoundTrip` | pkg/core/forward/supervisor.go:792-870 | parsing a serialised hello gives the first host_name of the first server_name extension, or the right refusal |
| `Bytes.BigEndian16` | pkg/core/forward/supervisor.go:792-870 | the first of two bytes is the high one |
| `Bytes.BigEndian24` | pkg/core/forward/supervisor.go:792-806 | the same for three bytes |
| `ClientHello.NameNeedsHello` | pkg/core/forward/supervisor.go:792-845 | a name is only found in a message of type 1 whose declared length is there |
| `HelloReader.ReadTLSClientHelloSNI` | pkg/core/forward/supervisor.go:748-790 | the outcome is the reassembly's; on success the preface is exactly the consumed prefix of at most 8192 bytes |
| `HelloReader.SplitDoesNotMatter` | pkg/core/forward/supervisor.go:748-790 | every split into non-empty records within 8192 bytes gives what the unsplit parse gives |
| `HelloReader.WrittenHelloIsFound` | pkg/core/forward/supervisor.go:748-870 | serialise, split, send, reassemble and parse returns the first host name |
| `HelloReader.FoundWithinLimit` | pkg/core/forward/supervisor.go:748-790 | for every stream, a name is only found within 8192 consumed bytes |
| `HelloReader.NameNeedsHandshakeRecord` | pkg/core/forward/supervisor.go:748-790 | a name is only found in a stream that starts with a handshake record |
| `ProxyText.PortRoundTrip` | pkg/core/forward/proxy_protocol.go:106-130 | a printed port reads back |
| `ProxyText.QuadRoundTrip` | pkg/core/forward/proxy_protocol.go:88-130 | a printed IPv4 address reads back |
| `ProxyText.QuadOnlyPrinted` | pkg/core/forward/proxy_protocol.go:88-104 | the only string read as an IPv4 address is the one that prints it |
| `ProxyText.SignedPorts` | pkg/core/forward/proxy_protocol.go:106-115 | a port may carry a plus sign, and a minus sign only before zero; beyond 65535 none is read |
| `ProxyProtocol.BuildProxyV2` | pkg/core/forward/proxy_protocol.go:175-191 | the buffer filled in place is the 28-byte header, or nothing for other families |
| `ProxyProtocol.V2Fields` | pkg/core/forward/proxy_protocol.go:175-191 | byte by byte where signature, command, family, length, addresses and ports stand, ports cut down to sixteen bits |
| `ProxyProtocol.V1RoundTrip` | pkg/core/forward/proxy_protocol.go:52-130 | a built line of at most 56 bytes parses back, with exactly the rest |
| `ProxyProtocol.SixRoundTrip` | pkg/core/forward/proxy_protocol.go:52-115 | a TCP6 line parses back for every address parser that inverts the printing |
| `ProxyProtocol.FamiliesAreChecked` | pkg/core/forward/proxy_protocol.go:88-104 | a TCP4 line takes exactly the addresses with a four-byte form, and a TCP6 line refuses those |
| `ProxyProtocol.V1Needs` | pkg/core/forward/proxy_protocol.go:52-86 | what a version 1 header that parses must look like |
| `ProxyProtocol.V2Needs` | pkg/core/forward/proxy_protocol.go:132-173 | the same for version 2 |
| `ProxyProtocol.TLVsAreSkipped` | pkg/core/forward/proxy_protocol.go:132-173 | exactly the declared block is skipped, whatever TLVs it carries, for both families |
| `ProxyProtocol.HeaderRoundTrip` | pkg/core/forward/proxy_protocol.go:31-191 | for IPv4 endpoints and ports 0 to 65535, both versions give back endpoints and rest |
| `ProxyProtocol.ReadProxyProtocolV1Line` | pkg/core/forward/supervisor.go:910-925 | the bytes up to the first line feed, refused beyond 107 |
| `ProxyProtocol.ConsumeInboundProxyHeader` | pkg/core/forward/supervisor.go:872-908 | succeeds exactly on a header of that version and leaves the stream right behind it |
| `ProxyProtocol.BuiltHeaderIsConsumed` | pkg/core/forward/supervisor.go:872-925 | a built header is consumed to its last byte, whatever follows |
| `ProxyProtocol.BareLineFeedIsRefused` | pkg/core/forward/supervisor.go:910-925 | a line with a bare line feed between two fields, which the parser takes, is refused by the reader |
| `Placeholders.RebindPostgresPlaceholders` | pkg/core/repo/store.go:57-133 | the flag-driven loop writes the token list with its placeholders numbered |
| `Placeholders.NumberAt` | pkg/core/repo/store.go:76-127 | token by token: the k-th placeholder becomes `$k`, every other token is unchanged |
| `Placeholders.NumberedSpells` | pkg/core/repo/store.go:76-127 | reading the digits after the dollar sign gives the number of the placeholder |
| `Placeholders.NumberedInjective` | pkg/core/repo/store.go:76-127 | two placeholders never get the same text |
| `Placeholders.CodeStep` | pkg/core/repo/store.go:76-127 | outside quotes and comments a question mark becomes the next number and an ordinary character is copied |
| `Placeholders.SingleQuotedIsCopied` | pkg/core/repo/store.go:57-133 | a string literal is copied whole, question marks included |
| `Placeholders.DoubledQuoteStaysInside` | pkg/core/repo/store.go:57-133 | a doubled quote does not end the literal |
| `Placeholders.DoubleQuotedIsCopied` | pkg/core/repo/store.go:57-133 | so is a quoted identifier |
| `Placeholders.LineCommentIsCopied` | pkg/core/repo/store.go:57-133 | so is a line comment, up to the line feed |
| `Placeholders.BlockCommentIsCopied` | pkg/core/repo/store.go:57-133 | so is a block comment, up to its first end |
| `Placeholders.RebindPreservesLexing` | pkg/core/repo/store.go:57-133 | the output reads token by token like the input, in the same regions, with no bare placeholder left |
| `Placeholders.RebindIdempotent` | pkg/core/repo/store.go:57-133 | rebinding twice is rebinding once |

## Left out

- WebSocket, HTTP, SSE and socket copying; SQL text and row scanning; file and JSON formats: messages, rows and files are values.
- Integer widths: counters, versions and ports are unbounded; a counter beyond 63 bits is not modelled.
- float64 rates, latency smoothing and wall-clock formatting.
- Enrollment profiles, editions, quotas, audit records, notifications and install commands.
- The UDP reservation and session methods of the counter class; their updates are among the modelled changes, and conservation covers them, but no exact count is claimed.
- The order of targets in a metrics payload and its rate fields.
- Source-hash scheduling in target selection; the selectors other than least load.
- `Manager.Apply`'s backend rollback, HAProxy and nftables rendering and process control; the nftables guard of a lock is a nondeterministic refusal.
- Failed reads of lock files and an unreadable /proc; instance IDs are never empty, as the manager fills them in.
- DNS record deletion, partly applied provider calls, provider paging and several records sharing one target; which of several pending credentials a query returns first.
- Runtime rule IDs given to expanded ports, and the sorting of compiled rules (results hold for every order).
- A `?` directly followed by a digit: `$1` then runs into that digit; the results say which characters are written, not how PostgreSQL tokenises them.
- Invalid UTF-8 in a query (replaced by U+FFFD before scanning) and non-ASCII white space in a version 1 PROXY line.
- Outbound PROXY headers, which a library formats.
- DnsRetirement.NoForgottenTarget: provider targets are compared as canonical values; spelling variants of a zone or name that differ in case or padding are not modelled.
- Registration.UsedTokenIsStored: one agent and one registration token; several tokens of one agent are covered by RegistrationStore.RegistrationSafety only.
- LeastLoad.SelectLeastLoadTargetGroupEndpoint: equality with the reserving loop is stated for candidates with non-empty IDs, because the snapshot skips empty ones.
- Admission.RuleStore.Save: further refusals (node port ranges, port quotas, upstream and permission checks) are not modelled; they only make the store smaller. Protocol and match type arrive parsed, and a node's addresses are its enabled ones.
- ListenerHolding.AcquiredLocksAreExclusive: a listener released on an error path counts as given up, although the process may serve it until its previous plan is acquired again.
