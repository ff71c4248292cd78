# Verified model of the NOC/SOC backend's stateful cores

A Dafny model of the parts of the multi-tenant NOC/SOC backend whose correctness depends on state, order or
concurrency, with proofs about every run. `dafny verify dfyconfig.toml` checks all of it.

How the program's pieces appear:

- A SQL statement, a Redis command, a handler's transaction or a goroutine's move is one atomic step on maps and
  sequences. Where several workers, requests, processes or goroutines share state, a state machine interleaves
  their steps freely, and the theorems quantify over all schedules.
- Code that updates tables, lists or maps in place is a class or a method with loops, proved equal to a function
  of the old state; the properties are then proved about that function.
- What comes from outside (whether a vendor call succeeds, how a host answers a probe, what mapping a payload
  yields, whether a name parses as an IP address, clock readings) is a parameter, arbitrary in every theorem.

| module | models |
|---|---|
| `IncidentRace` | concurrent alert grouping, one SQL statement at a time, with savepoints, row locks and the partial unique index |
| `IncidentStore` | the incident lifecycle under serial transactions: severity, risk, group and single acknowledge and resolve |
| `ResolveRace` | concurrent single resolves of one incident, statement by statement |
| `Playbook` | the response engine: start, advance, approve, reject |
| `Topology` | the topology graph builder: name resolution, aliases, host folding, edges, ordering |
| `TopologyPlaces` | where names, hosts and link ends go in the graph, said of the builder's inputs alone |
| `LinkIngest` | storing the links agents report, and what the graph makes of them |
| `Cidr`, `Discovery` | address expansion and the concurrent network sweep |
| `DeadLetters` | dead-letter replay |
| `ExpiringCounter`, `IngestGuard` | ingestion circuit breaker in front of the rate limiter, clock reading by clock reading and command by command |
| `ThreatIntel` | cross-tenant contributor ledger and counter index |
| `Migrations` | the migration runner across processes |
| `Interfaces` | SNMP column join and interface rates |
| `Assets` | the merged asset list |
| `Hub` | the WebSocket hub |
| `Text`, `Ordering`, `Severities`, `Wrappers` | string operations, sorting, severity ranks, optional values |

## What the proofs turned up

- The comment at internal/worker/incidents.go:130-132 promises that the loser of a create race bumps the winner's
  incident. PostgreSQL refuses every statement in a transaction block after a unique violation until the savepoint
  is rolled back, and the fallback's lookup runs before that. So a lost race always leaves the alert stored but
  ungrouped: `IncidentRace.OnlyLostRacesLeaveAlertsUngrouped` says exactly when, `IncidentRace.LosingTheRaceIsReachable`
  gives the run.
- Between a worker's lookup and its UPDATE by id an operator can resolve the incident, and the bump then lands on a
  resolved one: `IncidentRace.ResolvedIncidentCanBeBumped`. `IncidentRace.ResolvedCountsGrowByTheBound` says by how
  much and exactly when it stays frozen, `IncidentRace.ResolvedIncidentsGainTheirAlerts` which new alerts end up
  unresolved under it.
- Two operators who resolve the last two alerts at once can leave the incident unresolved:
  `ResolveRace.OverlappingResolvesLeaveItOpen`, and exactly when in `ResolveRace.ClosedExactlyWhenSomeoneChecksLast`.
- The aliases' short forms are not checked for ambiguity and are asked before the devices' short names, so a bare or
  dotted name can resolve to one of several devices with its short name, or to an unrelated one:
  `Topology.AliasesCanGuess`, `Topology.AliasesCanGuessBareNames`, and exactly when in `Topology.ShortMatchMeansOneDevice`.
- The rate limiter names its key from an earlier clock reading, and the key lives exactly a minute: a request
  delayed past the end of its minute can find the counter expired. `IngestGuard.LimiterCanExceedItsLimit` gives the
  trace, `IngestGuard.GuardBoundsEveryMinute` the exact condition, `IngestGuard.ShortDelaysAreCovered` the bound that
  remains.
- An unreadable counter counts as zero, so a failed walk followed by a good one reports the whole counter as the
  traffic of one interval, the spike the comment at internal/agent/interfaces.go:61-62 rules out for resets:
  `Interfaces.UnreadableCountersSpike`, `Interfaces.FailedWalkThenSpike`.
- Fleet corroboration (internal/worker/worker.go:298) adds to risk_score, but only until the next alert recomputes
  the score without it: `IncidentStore.RiskIsScorePlusRecentBonuses`.
- A group acknowledge also takes already resolved alerts of the incident back to acknowledged
  (`IncidentStore.AcknowledgeReopensResolvedAlerts`), and acknowledging or reopening a single alert can leave a resolved
  incident with an unresolved alert (`IncidentStore.FeedsAgreeThroughout`).
- Validation trims a notify step's channel, delivery looks it up untrimmed, so a padded channel passes validation
  and can never be delivered: `Playbook.PaddedChannelNeverDelivers`.
- The order of the graph's edge list is determined exactly when no two links stand for the same two ends over
  different protocols, and a neighbour seen over LLDP on one port and CDP on another gives such links:
  `LinkIngest.StoredLinksDetermineTheOrder`, `LinkIngest.StoredTwins`.
- The textual edge key of the graph builder is ambiguous for local addresses that contain a bar
  (`Topology.LinkIsLostExactlyWhenItsKeyIsTaken`, `Topology.AdjacenciesCanBeLost`). This concerns the function alone:
  the only writer of the link table accepts valid addresses only, and for stored links no adjacency is ever lost
  (`LinkIngest.EveryStoredLinkHasItsEdge`).
- The guard in `expandCIDR` commented as 4096 addresses (internal/agent/discovery.go:79) admits 2^20; the later
  length check enforces 4096. The model follows the code.

## Model

| member | source | states |
|---|---|---|
| IncidentRace.EveryRunIsSafe | internal/worker/incidents.go:133-186 | In every interleaving of statements, lost create races, failures, rollbacks and resolutions included: at most one unresolved incident per (tenant, fingerprint), every alert_count is the number of alerts linked, and links stay within tenant and fingerprint |
| IncidentRace.NoAlertIsLost | internal/worker/incidents.go:19-45 | Whatever happens to the grouping, stored alerts never change or vanish, and every committed transaction has stored its alert with exactly the link it obtained |
| IncidentRace.FailedGroupingKeepsTheAlert | internal/worker/incidents.go:33-37 | Wherever in the savepoint the grouping fails, the transaction can still commit, the alert is stored without a link and no incident is touched |
| IncidentRace.UngroupedExactlyWhenDerailed | internal/worker/incidents.go:19-45 | A stored alert stays outside every incident exactly when its worker lost the create race or another of its grouping statements failed |
| IncidentRace.OnlyLostRacesLeaveAlertsUngrouped | internal/worker/incidents.go:175-183 | With no other failing statement, a committed alert is ungrouped exactly when its worker's insert met an open incident: the fallback after it is always refused |
| IncidentRace.LosingTheRaceIsReachable | internal/worker/incidents.go:130-132 | For any two alerts of one problem there is a run, no statement failing but the lost insert and its lookup, that ends with one of them outside the open incident of that problem |
| IncidentRace.LostRacesHaveARival | internal/worker/incidents.go:134-183 | A lost insert is lost to somebody: its worker looked and found no open incident, and since then another worker with an alert of the same problem committed the incident it had inserted, which is open |
| IncidentRace.ResolvedCountsGrowByTheBound | internal/worker/incidents.go:138-161 | From any state of any run: a resolved incident stays resolved, is never chosen again, and its count grows by exactly the workers that had already chosen it and commit; it is frozen exactly when there is none |
| IncidentRace.ResolvedIncidentsGainTheirAlerts | internal/worker/incidents.go:29-32 | Those workers' alerts, all new, are exactly the ones linked to it after it was resolved: they are left unresolved under a resolved incident |
| IncidentRace.ResolvedIncidentCanBeBumped | internal/worker/incidents.go:138-161 | A run in which a resolved incident's count still grows |
| IncidentRace.ResolvedBumpsWereChosenOpen | internal/worker/incidents.go:138-161 | A worker bumps a resolved incident only if it found it open and an operator resolved it after that lookup |
| IncidentRace.HeldRowsAreStable | internal/worker/incidents.go:157-161 | While a worker holds an incident's row between its UPDATE and the end of its transaction, no other statement changes that row |
| IncidentRace.RunsAreBounded | internal/worker/incidents.go:133-186 | No schedule makes workers execute more statements than their program positions allow: there is no retry loop |
| IncidentRace.WaitingNeverDeadlocks | internal/worker/incidents.go:126-186 | While a worker is unfinished some worker can execute a statement that does not fail, or the refused lookup after a lost insert |
| IncidentRace.StepKeepsInv | internal/db/migrations/000019_incidents.up.sql:28-32 | Every single statement, with the row locks and the partial unique index, keeps uniqueness, counts, links and the waiting discipline |
| IncidentRace.CommitKeepsLinks | internal/worker/incidents.go:157-161 | Publishing a bump or a creation keeps every incident's count equal to its linked alerts |
| IncidentStore.WorseSeverity | internal/worker/incidents.go:64-69 | The result is one of the two, ranks at least as high as both, and ties keep the first |
| IncidentStore.RiskScoreIsMonotone | internal/worker/incidents.go:85-100 | The score is within 0..100 and monotone in severity rank, recurrence and criticality bonus together |
| IncidentStore.ScorePoints | internal/worker/incidents.go:71-100 | What the score is made of: a start by severity, three points for each of the first ten alerts and none after, fifteen or twenty-five for a high or critical asset and none for any other, cut at 100 |
| IncidentStore.Store.BumpExisting | internal/worker/incidents.go:134-163 | Bumps exactly the open incident of the fingerprint if there is one, takes over a criticality the new alert resolves and else keeps the known one, changes nothing if there is none, and fails exactly when a statement does |
| IncidentStore.Store.FindOrCreateOpenIncident | internal/worker/incidents.go:133-186 | Succeeds exactly when its statements do and no rival commits an open incident between lookup and insert; then it bumped the open incident or created the new one with the initial score; otherwise only the rival's row is new |
| IncidentStore.Store.AttachIncident | internal/worker/incidents.go:19-45 | Either nothing of this transaction but the stored alert remains, or the alert is linked to the one right incident; which of the two is decided exactly by the failing statements and the rival |
| IncidentStore.Store.SetIncidentStatus | internal/api/incidents.go:135-155 | The whole new state of a group acknowledge or resolve, and one row affected exactly when the incident is the tenant's and unresolved |
| IncidentStore.Store.ResolveOne | internal/api/handler.go:539-576 | The whole new state of resolving one alert with the auto-close of its incident, and the number of rows affected |
| IncidentStore.AttachKeepsInv | internal/worker/incidents.go:133-163 | Attaching an alert keeps one open incident per fingerprint, the count, the worst severity and the risk bounds |
| IncidentStore.HistoryKeepsInv | internal/worker/incidents.go:85-163 | Over any serial history: of two incidents of one tenant and fingerprint one is closed, count equals linked alerts, severity is the worst ever attached and is attained, risk lies between the computed score and 100 |
| IncidentStore.AlertsOfOneProblemAreGrouped | internal/worker/incidents.go:134-163 | Whatever happens between two grouped alerts of one tenant and fingerprint, the later joins the incident of the earlier exactly as long as that is not closed |
| IncidentStore.RiskIsScoredWithTheLastCriticality | internal/worker/incidents.go:149-161 | After any serial history an incident's criticality is that of the last alert attached to it whose host resolved to one, or the one it started with, and its risk is the score with that plus the fleet bonuses since |
| IncidentStore.LastResolvedIsLast | internal/worker/incidents.go:150-155 | That criticality is the last resolving alert's, and the starting one exactly if there was none |
| IncidentStore.AttachingKeepsTheStatus | internal/worker/incidents.go:157-172 | Attaching an alert changes no status, and an incident newly created is open |
| IncidentStore.NewAlertsAreTriggered | internal/worker/worker.go:310-320 | An alert comes in triggered and linked to the incident it was grouped under, and no other alert or incident changes |
| IncidentStore.StatusesAfterwards | internal/api/handler.go:485-576 | What group acknowledge and resolve, single acknowledge and resolve, and reopening make of the status of every alert and incident |
| IncidentStore.HistoryFollows | internal/worker/incidents.go:149-161 | Over any serial history an incident's count and severity rank never fall, a known criticality is never erased, and a resolved incident is frozen for good |
| IncidentStore.RiskNeverFalls | internal/worker/incidents.go:149-161 | Without fleet enrichment risk_score is exactly computeRiskScore of severity, count and criticality, and never falls while the criticality is unchanged, absent or raised |
| IncidentStore.RiskIsScorePlusRecentBonuses | internal/worker/worker.go:281-309 | Over any serial history risk_score is exactly the computed score plus the fleet bonuses since the last alert was attached, cut at 100 |
| IncidentStore.FleetBonusIsOverwritten | internal/worker/worker.go:298-298 | The risk raise from fleet corroboration is always undone by the next alert attached to the incident |
| IncidentStore.OneByOneIsGroupResolve | internal/api/handler.go:558-572 | Resolving all alerts one by one, in any order and with repetitions, ends in the same rows as one group resolve; after any part of them the incident is untouched exactly while another alert is still unresolved |
| IncidentStore.AcknowledgeReopensResolvedAlerts | internal/api/incidents.go:148-151 | A resolved alert survives a group acknowledge as resolved exactly when it belongs to another incident |
| IncidentStore.FeedsAgreeThroughout | internal/api/handler.go:558-561 | Over a serial history a resolved incident is never left with an unresolved alert exactly when the history never acknowledges or reopens a single alert of a resolved incident |
| IncidentStore.Store.AcknowledgeOne | internal/api/handler.go:485-505 | The whole new state of acknowledging one alert, whatever its status was, and the number of rows affected |
| ResolveRace.ClosedExactlyWhenSomeoneChecksLast | internal/api/handler.go:539-576 | Over every schedule of single resolves, committed or aborted: the incident ends resolved exactly when some committing transaction checks after resolvers of every other initially unresolved alert have committed |
| ResolveRace.OverlappingResolvesLeaveItOpen | internal/api/handler.go:558-572 | A run of two committed resolves that leaves the incident unresolved with nothing unresolved under it |
| ResolveRace.ResolvingAgainCloses | internal/api/handler.go:562-572 | Resolving any of its alerts once more, undisturbed, then resolves it |
| Playbook.ValidateSteps | internal/playbook/playbook.go:53-79 | Succeeds exactly on a non-empty list of well-formed steps, and otherwise names the first offending one |
| Playbook.WellFormedSteps | internal/playbook/playbook.go:53-79 | A step is well formed exactly as a notification to one of the five channels, a comment with text, or a containment with integration, action and a target or context key, none blank |
| Playbook.TargetsResolve | internal/playbook/playbook.go:81-91 | A target is found exactly when the literal is not blank or the context has a value that is not under targetFrom; it is the trimmed literal if there is one, else that value |
| Playbook.AutomaticOutcomes | internal/api/playbook_engine.go:252-275 | A well-formed automatic step succeeds exactly when it is delivered, to an incident for a comment and to a channel by its exact name for a notification; it is skipped exactly as a comment without an incident |
| Playbook.PaddedChannelNeverDelivers | internal/playbook/playbook.go:60-62 | A validated notify step can be delivered exactly when its channel has no surrounding white space: validation trims, execution does not |
| Playbook.AdvanceRunsUpToTheNextContainment | internal/api/playbook_engine.go:139-171 | Advancing gives every step before the first containment its own outcome, touches nothing else, and stops there or past the end |
| Playbook.OneStepAwaits | internal/api/playbook_engine.go:365-373 | A run awaits approval exactly when some step does, which is then the containment at current_step, alone, with settled steps before and pending ones after |
| Playbook.StartEstablishesInv | internal/api/playbook_engine.go:92-135 | A run is created exactly for an enabled, valid playbook, fires nothing, stops paused or completed, and contains no step type the engine cannot execute |
| Playbook.ApproveKeepsInv | internal/api/playbook_engine.go:175-234 | Approving works exactly on a paused run and sends the awaiting step exactly when it has a target, literal or from the context, to that target and nothing else; the run then moves on if the vendor contained, and is broken at that step in every other case |
| Playbook.RejectKeepsInv | internal/api/playbook_engine.go:237-249 | Rejecting works exactly on a paused run, fires nothing and skips just the awaiting step |
| Playbook.RunKeepsInv | internal/api/playbook_engine.go:139-249 | The whole-run invariant survives any sequence of calls, the firing log only grows, and terminal runs are absorbing |
| Playbook.FiresEachContainmentOnce | internal/api/playbook_engine.go:175-234 | Over any run each containment is sent at most once, in playbook order and to its own target; a completed run has every step settled and every containment sent |
| Playbook.EndsAfterEveryContainmentIsApproved | internal/api/playbook_engine.go:139-234 | A playbook with k containment steps has ended after k approvals, whatever vendors answer and whatever is called in between |
| Playbook.Engine.StartRun | internal/api/playbook_engine.go:92-135 | Returns a fresh run in exactly the specified state, or null exactly when none is to be created |
| Playbook.Engine.Advance | internal/api/playbook_engine.go:139-171 | The index loop over the step table does what the step function says |
| Playbook.Engine.ApproveStep | internal/api/playbook_engine.go:175-234 | The in-place approve with all its exits does what the step function says; an error changes nothing |
| Playbook.Engine.RejectRun | internal/api/playbook_engine.go:237-249 | The in-place reject does what the step function says; an error changes nothing |
| Topology.ResolveFindsANode | internal/api/topology_graph.go:171-196 | Resolving a name never yields an id without a node |
| Topology.OneHostName | internal/api/topology_graph.go:129-134 | Two texts are one host name exactly when, without white space around them and one trailing dot, they differ in the case of letters at most |
| Topology.EveryHostHasACore | internal/api/topology_graph.go:129-134 | Every text has such a form: white space, a core, at most one dot, white space |
| Topology.ShortNameIsFirstLabel | internal/api/topology_graph.go:136-143 | The short name is all that comes before the first dot |
| Topology.FoldHostAt | internal/api/topology_graph.go:260-280 | One host changes a node exactly if it is its target: its count adds up, its severity rank is the maximum, its identity stays |
| Topology.FoldingAggregates | internal/api/topology_graph.go:260-280 | Over all hosts: no node is overwritten, each unresolved count is the sum and each severity rank the maximum over the hosts folded onto it |
| Topology.FoldingConserves | internal/api/topology_graph.go:260-280 | The sum of all nodes' unresolved counts grows by exactly the sum over the named hosts |
| Topology.ShortNamesAreUnambiguous | internal/api/topology_graph.go:232-236 | A short name is in the lookup exactly when one discovered device has it, and leads to that device |
| Topology.AliasTable | internal/api/topology_graph.go:239-257 | Under every key the alias table holds exactly what the filing order determines |
| Topology.LastFiledIsLast | internal/api/topology_graph.go:239-257 | That is the device of the last alias filed there, in full or in short form, and nothing exactly when none is |
| Topology.WhatIsFiledUnder | internal/api/topology_graph.go:247-256 | Under a name with a dot only that very alias is filed; under a bare name also every alias, no IP literal, whose first label it is |
| Topology.UnknownNamesResolve | internal/api/topology_graph.go:171-196 | A name, bare or not, that is neither the address nor the name of a node resolves to the device of the last alias filed under it, else, unless it is an IP literal, under its first label, else to the one device with that short name, else not at all |
| Topology.EveryNameResolves | internal/api/topology_graph.go:171-257 | For every name, against devices and aliases alone: the device with that address, else the last with that full name, else as the aliases say, else the one device with that short name, else none |
| Topology.ShortMatchMeansOneDevice | internal/api/topology_graph.go:181-195 | Such a name leads to the one device with its first label as short name exactly when the aliases say nothing about it or name that very device |
| Topology.AliasesCanGuess | internal/api/topology_graph.go:253-255 | An alias of one of two devices with the same short name makes an unrelated host resolve to it |
| Topology.AliasesCanGuessBareNames | internal/api/topology_graph.go:182-184 | It does so for the bare short name as well, which the first alias lookup answers |
| Topology.LinksAreWellFormed | internal/api/topology_graph.go:284-315 | Over all links: every edge joins two different existing nodes, no two edges share source, target and protocol, and no node already there changes |
| Topology.EdgeKeyIsInjective | internal/api/topology_graph.go:309-309 | The textual key identifies the adjacency when local address and protocol contain no bar, whatever the remote name contains |
| Topology.EveryLinkHasItsEdge | internal/api/topology_graph.go:286-315 | Without bars in local addresses and protocols, no link between two different ends is lost to another's key; which end that is says `TopologyPlaces.LinksReachTheirFarEnd` |
| Topology.LinkIsLostExactlyWhenItsKeyIsTaken | internal/api/topology_graph.go:309-314 | Without that restriction: an adjacency is missing from the final graph exactly when another one held its key at its turn |
| Topology.AdjacenciesCanBeLost | internal/api/topology_graph.go:309-312 | For the builder taken alone: a family of two-link inputs, with bars in local addresses, whose second adjacency is lost |
| TopologyPlaces.LeadsToResolves | internal/api/topology_graph.go:171-257 | Before hosts are folded a name resolves to an id exactly if the devices and assets say so: the device with that address, the last with that full name, that of the last alias, or the only one with that short name |
| TopologyPlaces.EndsAtResolves | internal/api/topology_graph.go:260-280 | And once hosts are folded: device addresses and full names first, then hosts that became nodes of their own, then aliases and short names |
| TopologyPlaces.MergedNode | internal/api/topology_graph.go:211-280 | The merged graph has a node for every device and for every host without one; it has the alerts and the worst severity rank of exactly the hosts whose names end at it, an origin that says who speaks of it, and everything discovery said of the device |
| TopologyPlaces.OtherNodesComeFromLinks | internal/api/topology_graph.go:287-308 | Every other node is the local address of a link or the unknown neighbour at a link's far end, titled and typed as such, and every local address has a node |
| TopologyPlaces.LinksReachTheirFarEnd | internal/api/topology_graph.go:284-315 | Every link with two different ends is an edge in the merged graph, from its local address to the far end its remote name has by devices, assets, hosts and link sources alone, or to a neighbour named after the chassis id or else the name |
| TopologyPlaces.KnownNeighborsAreJoined | internal/api/topology_graph.go:293-295 | A link whose remote name leads to a device with another address joins the two |
| TopologyPlaces.UnknownNeighborsAreJoined | internal/api/topology_graph.go:296-308 | A link whose remote name leads nowhere ends at a neighbour named after its chassis id, or after the name if that is blank |
| LinkIngest.Links.Ingest | internal/api/agent_discovery.go:331-352 | A reported batch is stored row by row: malformed local addresses are skipped, protocols are CDP or LLDP, one row per identity |
| LinkIngest.LatestReportWins | internal/api/agent_discovery.go:341-349 | Under an identity the table holds the latest accepted report, and nothing exactly when there was none |
| LinkIngest.AcceptedReports | internal/api/agent_discovery.go:331-352 | A report is stored exactly if its local address is valid, as it came, CDP kept and every other protocol taken for LLDP |
| LinkIngest.OneRowForEachPlace | internal/api/agent_discovery.go:341-349 | Every report with a valid local address has one row for that neighbour on that port, no two rows are for the same, and every row is what some report became |
| LinkIngest.StoreKeepsRowsOk | internal/api/agent_discovery.go:332-338 | Every stored link has a valid local address, protocol cdp or lldp, and its own identity as key |
| LinkIngest.EveryStoredLinkHasItsEdge | internal/api/topology_graph.go:284-315 | For whatever agents report and whichever rows are read in whatever order, no stored link between two different ends is lost to another's key |
| LinkIngest.StoredLinksReachTheirFarEnd | internal/api/topology_graph.go:284-315 | Every stored link with two different ends joins its local address to the far end the inputs alone determine |
| LinkIngest.StoredNeighborsAreJoined | internal/api/topology_graph.go:293-315 | Two devices are joined when the remote name of the one's stored link leads to the other |
| LinkIngest.StoredLinksDetermineTheOrder | internal/api/topology_graph.go:328-333 | For stored links the order of the graph's edge list is determined exactly when no two of them stand for the same two different ends over different protocols |
| LinkIngest.StoredTwins | internal/api/topology_graph.go:328-333 | Two links that can be stored and do so: one neighbour over LLDP on one port and over CDP on another |
| Topology.MergedGraphIsSound | internal/api/topology_graph.go:201-335 | For all inputs: alert conservation over the graph, endpoints are nodes, no self-loops, no duplicate edges, ids match keys |
| Topology.NodeListIsCanonical | internal/api/topology_graph.go:321-327 | The node list is the only strictly ordered one, hence independent of map iteration order |
| Topology.EdgeListIsCanonical | internal/api/topology_graph.go:328-333 | The order of an edge list is determined exactly when no two edges with the same ends differ, in protocol or ports |
| Topology.EveryEdgeHasItsLink | internal/api/topology_graph.go:286-315 | Every edge is the adjacency some link stood for at its turn, with that link's ports |
| Topology.MostUnresolvedFirst | internal/api/topology_graph.go:321-327 | The node list goes from the most unresolved alerts down, and in dictionary order of ids among equals |
| Topology.EdgesByTheirEnds | internal/api/topology_graph.go:328-333 | The edge list is in dictionary order of sources, then of targets |
| Topology.ListNodes | internal/api/topology_graph.go:317-327 | Lists every node once, strictly ordered by unresolved count and id, whatever the iteration order |
| Topology.ListEdges | internal/api/topology_graph.go:328-333 | A permutation of the edges with none before one it belongs behind |
| Topology.IndexDevices | internal/api/topology_graph.go:201-236 | The device loop over five maps yields the specified tables, ambiguous short names dropped |
| Topology.FoldAlertHosts | internal/api/topology_graph.go:260-280 | The host loop yields the specified fold |
| Topology.LinkNeighbors | internal/api/topology_graph.go:284-315 | The link loop yields the specified nodes and edges |
| Topology.BuildTopologyGraph | internal/api/topology_graph.go:201-335 | The whole builder yields the ordered node and edge lists of the merged graph |
| Cidr.ExpansionIsUsable | internal/agent/discovery.go:68-103 | Exists exactly for IPv4 blocks of at most 12 host bits, and lists in strictly increasing order exactly the block's addresses without network and broadcast (all of them for /31 and /32, section 2.1 of RFC 3021) |
| Cidr.ExpandCidr | internal/agent/discovery.go:68-103 | The loop in 32-bit arithmetic computes that list: nothing wraps |
| Cidr.ConsoleAcceptsWhatTheAgentExpands | internal/api/agent_discovery.go:58-95 | The console accepts a target exactly when its fields are filled in, with a known version and a port or none, and the agent's expansion of its CIDR succeeds |
| Discovery.ActDecreases | internal/agent/discovery.go:178-206 | Every move of any goroutine brings the sweep closer to its end |
| Discovery.SweepNeverBlocks | internal/agent/discovery.go:178-206 | Until every worker has returned, some goroutine can move |
| Discovery.EveryScheduleAgrees | internal/agent/discovery.go:172-206 | Every schedule is finite, with at most 32 workers, and continues until done; then each host was probed exactly once and found map, bag of links and set of ARP addresses are those of the inputs alone |
| Discovery.TheSweepFindsWhatAnswers | internal/agent/discovery.go:159-207 | Over all targets an address is found exactly if it is a usable address of some target that has it answer, with the answer of the last such target; it is probed once per target covering it, an ARP address is known exactly if an answering host lists it, and every neighbour entry counts as often as it is listed |
| Discovery.MergeArpKeys | internal/agent/discovery.go:193-197 | Merging an ARP table keeps earlier entries and adds exactly the missing addresses |
| Discovery.Sweep | internal/agent/discovery.go:172-206 | Under an arbitrary scheduler the pool terminates with that result |
| Discovery.Discover | internal/agent/discovery.go:159-226 | Over all targets: distinct devices from the later target per address, all links, each expandable host probed once, ARP hosts distinct and disjoint from devices, one error per skipped target |
| DeadLetters.Redis.Replay | internal/api/dlq_handler.go:94-148 | The loop leaves the queues and reports the tally that `DeadLetters.ReplayDelivers` spells out entry by entry |
| DeadLetters.ReplayDelivers | internal/api/dlq_handler.go:107-148 | A replay of n adds exactly the incidents the mapping yields for the n oldest entries, in order; every other envelope reappears with the same payload and reason, the new error and one retry more, in the queue below the maximum and in poison at it; replayed counts the entries that map, dropped the texts that are no envelope |
| DeadLetters.PushesKeepTheNewest | internal/queue/dlq.go:21-34 | After any number of pushes the queue holds exactly the newest entries up to the cap, newest first, and nothing else has changed |
| DeadLetters.Redis.PushDlq | internal/queue/dlq.go:23-34 | Never more than the cap; the new entry is first, the others follow unchanged, and one is dropped, the oldest, exactly at the cap |
| DeadLetters.ReplayIsFifo | internal/api/dlq_handler.go:97-148 | A replay pops exactly the n oldest entries once each in FIFO order, trims nothing, and keeps newer entries in place behind the requeued |
| DeadLetters.TallyConserves | internal/api/dlq_handler.go:107-148 | Popped equals replayed plus requeued plus poisoned plus dropped, and the columns match the lists |
| DeadLetters.HistoryKeepsRetries | internal/api/dlq_handler.go:138-147 | Over any serial history: length within the cap, retry counts below the maximum in the DLQ and exactly at it in the poison queue |
| DeadLetters.ReplayCostsBudget | internal/api/dlq_handler.go:94-148 | Each popped entry costs at least one unit of the remaining retries |
| DeadLetters.TwoFullReplaysDrain | internal/queue/keys.go:33-35 | Two full replays without traffic in between empty the DLQ, whatever the mapping answers |
| ExpiringCounter.AdmittedExactly | internal/middleware/auth.go:344-349 | An expiring counter admits exactly up to its limit if and only if it never expired between two increments, or they were no more than the limit, or the limit is zero; otherwise it admits more |
| IngestGuard.GuardBoundsEveryMinute | internal/middleware/ingest_breaker.go:75-105 | For every interleaved trace, with clock readings and increments at their own times: breaker and limiter admit exactly up to threshold and limit for a minute if and only if that minute's counter did not expire in between; no more reach the handler than the breaker passed |
| IngestGuard.ShortDelaysAreCovered | internal/middleware/ingest_breaker.go:81-92 | While increments follow their clock readings within a minute, the breaker is exact and the limiter admits at most twice its limit |
| IngestGuard.InTimeTheLimiterIsExact | internal/middleware/auth.go:341-356 | When a minute's increments run within that minute the limiter admits exactly up to its limit |
| IngestGuard.BothGuardsBoundEveryMinute | internal/middleware/ingest_breaker.go:56-57 | As long as no request crosses a minute, at most the smaller of threshold and limit of a minute's requests reach the handler, and exactly that many, or all if fewer, once none is between the two guards |
| IngestGuard.LimiterCanExceedItsLimit | internal/middleware/auth.go:341-347 | A trace with a delay of two milliseconds in which two requests of one minute are handled under a limit of one |
| IngestGuard.ActKeepsLimiter | internal/middleware/auth.go:341-361 | Each step keeps every limiter counter what its increments make of it, and the admissions what the counter decided |
| IngestGuard.AlarmsAreACooldownApart | internal/middleware/ingest_breaker.go:92-100 | Two alarms of a tenant are more than one cooldown apart, however many requests trip at once |
| IngestGuard.OpenForACooldownAfterAnAlarm | internal/middleware/ingest_breaker.go:75-105 | Over every trace: an arriving request is shed at once exactly if an alarm of its tenant was raised at most a cooldown ago, and is counted otherwise; a request over the threshold is shed, and raises an alarm exactly if no such alarm covers it |
| IngestGuard.WellBehavedTenantsAreNeverShed | internal/middleware/ingest_breaker.go:92-103 | A tenant with no more than the threshold counted in every minute is never shed and its breaker never opens |
| IngestGuard.TenantsAreIsolated | internal/middleware/ingest_breaker.go:71-83 | Over any trace, other tenants' requests leave a tenant's keys untouched |
| IngestGuard.Redis.Serve | internal/middleware/ingest_breaker.go:64-106 | One request run alone: shed at the flag exactly while the flag lives, shed and counted exactly over the threshold, the flag set for a cooldown exactly by an alarm, handled exactly within the limit; all as its interleaved steps do |
| ThreatIntel.CountNeverExceedsContributors | internal/threatintel/threatintel.go:160-224 | Under any interleaving tenant_count plus increments under way plus lost ones is the number of distinct contributors; no lookup reports more than the true number of others |
| ThreatIntel.QuietRunsAgree | internal/threatintel/threatintel.go:160-188 | With nothing under way and nothing lost every tenant_count is exact |
| ThreatIntel.Intel.Record | internal/threatintel/threatintel.go:160-188 | Undisturbed: the ledger gains exactly the pairs, each indicator's observations grow by its occurrences, and counts stay in agreement with the ledger |
| ThreatIntel.Intel.OtherTenantSightings | internal/threatintel/threatintel.go:204-224 | With counts in agreement: the other contributors of every indicator are at most the answer, which one indicator attains unless it is zero |
| ThreatIntel.QuietLookupsAreExact | internal/threatintel/threatintel.go:204-224 | However lookups interleave while nothing is written, a finished one reports that maximum over its indicators |
| ThreatIntel.RecordingAgainAddsNothing | internal/threatintel/threatintel.go:156-159 | A tenant's repeated or own sightings never change the ledger twice nor its own corroboration signal |
| Migrations.MigrationsAreAppliedInOrderOnce | internal/db/migrations.go:30-126 | For any processes, interleavings, failures and crashes: committed is a growing prefix of the sorted list, each migration committed once, at most one process in the critical section, and success means everything known is committed |
| Migrations.RunnerNeverDeadlocks | internal/db/migrations.go:41-51 | While a process is unfinished some process can take a step that is no failure or crash |
| Migrations.FailuresAreOnesOwn | internal/db/migrations.go:81-125 | A process that finishes reports failure exactly if one of its own statements failed, whatever became of the others |
| Migrations.Schema.RunMigrations | internal/db/migrations.go:81-125 | One process commits exactly up to the first failing script and succeeds exactly when all are committed |
| Interfaces.IndexIsTheRest | internal/agent/neighbor.go:50-57 | An object id has an index under a column exactly when it is column, dot, index |
| Interfaces.ColumnsNeverMix | internal/agent/neighbor.go:50-57 | No object id has an index under two columns of a table, even when one column number is a prefix of the other |
| Interfaces.JoinIsByIndex | internal/agent/neighbor.go:60-68 | Under an index the join has the last value walked there, and nothing exactly when nothing was |
| Interfaces.BuildStats | internal/agent/interfaces.go:91-126 | One stat for each named row and no other, each row once, and the samples of exactly these rows |
| Interfaces.ReportsWhatWasWalked | internal/agent/interfaces.go:91-126 | An interface is reported exactly if the name walked under its index is not blank; its name, status, speed and both remembered counters are then the readings of their own columns under that index |
| Interfaces.CountersAreReadBack | internal/agent/interfaces.go:52-58 | A counter is read back from its decimal numeral, with white space around it or not; one beyond 64 bits counts as zero |
| Interfaces.Collector.Collect | internal/agent/interfaces.go:139-152 | Returns the stats of all polls against the old history and replaces the history by this cycle's samples |
| Interfaces.StatsCarryTheRates | internal/agent/interfaces.go:112-123 | Reported rates are those between the sample left by the previous cycle and the one this cycle leaves, in both directions |
| Interfaces.RateBounds | internal/agent/interfaces.go:63-68 | One rate times its interval is at most the bits moved and misses less than one bit per second |
| Interfaces.ResetsReportNothing | internal/agent/interfaces.go:63-68 | Whatever a cycle reports: a rate accounts for the bits moved between two samples of increasing time and counter, and the first sight of an interface, a reset and a clock that stood still report zero |
| Interfaces.ReportedBitsMatchTheCounters | internal/agent/interfaces.go:63-126 | Across any run of histories with non-decreasing samples, rates times intervals never exceed eight times the counter's movement and fall short by less than the elapsed seconds |
| Interfaces.CollectCycles | cmd/noc-agent/main.go:131-134 | Successive cycles return, and leave as history, what each call's specification says |
| Interfaces.CollectedBitsMatchTheCounters | internal/agent/interfaces.go:138-152 | The same bounds for the sum over the stats the collector's calls actually return |
| Interfaces.UnreadableCountersSpike | internal/agent/interfaces.go:52-68 | The reported rate is the true one if both counter texts are readable, zero if the later is not, and that of the whole count if only the earlier is not; once the counter had moved by a bit per second of the interval it exceeds the true rate exactly in the last case |
| Interfaces.FailedWalkThenSpike | internal/agent/interfaces.go:138-152 | Two concrete calls of the collector, the first without a readable counter: the stat the second returns reports the whole counter as traffic |
| Assets.OneRowPerMember | internal/api/assets.go:125-177 | With unique keys the merge holds exactly the merged row of every member of the union, blank manual fields keeping discovery values |
| Assets.RowsTellMembership | internal/api/assets.go:144-164 | managed and discovered are exactly membership in each input, and every member appears exactly once |
| Assets.MergeIsCanonical | internal/api/assets.go:169-176 | The list is the same for every permutation of both inputs |
| Assets.MostCriticalFirst | internal/api/assets.go:74-87 | The merged list goes from critical over high and medium, or anything unlabelled, to low, and in dictionary order of identifiers within each |
| Assets.MergeAssets | internal/api/assets.go:125-177 | The loops and the sort produce a permutation of the rows always, and the strictly ordered list of merged rows for unique keys |
| Hub.RegistrationIsExact | internal/ws/hub.go:80-118 | Under every schedule a client is under a tenant exactly while registered and subscribed to it, no entry is empty, everyone filed has an open channel, nothing is sent on or closed after a close |
| Hub.ClientsReceiveTheirTenantsMessages | internal/ws/hub.go:122-140 | A client receives, in order, only messages posted to its tenants while registered, all of them unless its channel was once full, and its channel stays within its capacity |
| Hub.RestingHubIsUpToDate | internal/ws/hub.go:142-147 | When the hub has nothing left to do, disconnected clients are out of the map with their channel closed, and all others are under all their tenants |
| Hub.AddedMembers | internal/ws/hub.go:94-102 | Registering adds exactly the client under its tenants and leaves no empty entry |
| Hub.RemovedMembers | internal/ws/hub.go:104-115 | Unregistering removes exactly the client from its tenants and leaves no empty entry |
| Hub.Registry.Register | internal/ws/hub.go:94-102 | The loop over the tenants performs that addition |
| Hub.Registry.Unregister | internal/ws/hub.go:104-116 | The loop over the tenants performs that removal and closes the channel, its contents kept |
| Hub.Registry.BroadcastToTenant | internal/ws/hub.go:122-140 | Every client of the tenant with room gets the message, full ones are returned for disconnecting, all other channels are untouched |

## Left out

- IncidentStore.Store.FindOrCreateOpenIncident: a rival transaction is one that commits between lookup and insert; all other interleavings are in `IncidentRace`.
- IncidentRace.EveryRunIsSafe: does not speak of severity and risk, which the program computes from an earlier read and does not promise under concurrent bumps.
- IncidentRace.WaitingNeverDeadlocks: a failing RELEASE of the savepoint is modelled as losing the transaction.
- IngestGuard.GuardBoundsEveryMinute: bounds breaker and limiter per minute of their own clock readings, because a request may cross a minute between the two; the increment and the expiry of one pipeline are one step, and a key is gone once the clock is past its expiry.
- IngestGuard.AlarmsAreACooldownApart: the clock is in milliseconds and does not go back, and the configured values are the positive ones the program accepts; the counter of shed requests is kept as a number of events.
- Discovery.EveryScheduleAgrees: fixes the addresses of ARP entries, not which responder's hardware address wins, which does depend on the schedule; a scanner answers deterministically and a device reports the address that was probed.
- Cidr.ExpandCidr: addresses are numbers and parsing is a datatype (malformed, not IPv4, block); dotted text and its parser are not modelled.
- DeadLetters.ReplayIsFifo: no other producer pushes during the call, so nothing is trimmed; failing Redis commands and JSON text are not modelled.
- ResolveRace.ClosedExactlyWhenSomeoneChecksLast: a check that would wait for another transaction's write of the incident row is not made to wait; either way the incident ends resolved if one of the two commits.
- LinkIngest.EveryStoredLinkHasItsEdge: which texts parse as IP addresses is a parameter, of which only is used that none contains a bar or begins with "nbr:".
- TopologyPlaces.KnownNeighborsAreJoined: leaves out remote names that are the bare address of an undiscovered link source, and those, no IP literals themselves, that normalize to the name of a host that is one; where these go is in `TopologyPlaces.LinksReachTheirFarEnd`, which leaves out neither.
- TopologyPlaces.LinksReachTheirFarEnd: of the builder taken alone it assumes that local addresses and protocols contain no bar and local addresses do not begin with "nbr:"; stored links meet both.
- ThreatIntel.Intel.OtherTenantSightings: promises the exact maximum only while counts agree with the ledger; the bound for every other state is `ThreatIntel.CountNeverExceedsContributors`.
- Interfaces.RateBounds: rates are floors of exact quotients instead of rounded doubles, and fit the result type.
- Interfaces.StatsCarryTheRates: assumes no device is polled twice in a cycle; a repeated device leaves the sample of its last poll.
- Interfaces.Collector.Collect: history keys are pairs of address and index, where the program joins the two with a bar; operational status is a datatype for its six labels, and a speed's conversion to bits per second does not overflow.
- Migrations.MigrationsAreAppliedInOrderOnce: file names are distinct and every process ships a prefix of the newest sorted list; a failing unlock, which would leave the lock on a pooled connection, is not modelled.
- Hub.RegistrationIsExact: each client registers once and leaves through ForceDisconnect, as the connection handler does; shutdown only stops the hub's loop, and closing the network connection is not modelled.
- Playbook.ApproveKeepsInv: approvals and rejections of one run are serialized and table writes succeed; two simultaneous approvals and a crash between a vendor call and its commit are not modelled.
- Text: ASCII white space and case only; Unicode folding is not modelled. Severity and criticality labels are datatypes with a case for every other label.
- Topology: interface utilization on edges is not modelled.
- Retention deletion, debouncing that revives an existing alert, AI edits of severities, incident dispositions, comments and timestamps of acknowledging and resolving.
- A Redis outage, where breaker and limiter let requests through.
- HTTP, JSON and SQL text, vendor calls, notifiers, cryptography, RBAC, plan limits, device classification, LLDP and CDP text parsing, reports and the frontend: one branch settles each, or the substance is in code outside the repository.
