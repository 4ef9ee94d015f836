# Hako in Dafny

Hako is a proxy kernel. Most of it moves bytes, but several parts are
algorithms and lock protocols whose correctness is not visible from any single
function. This project models those parts and proves what they guarantee, for
every input, every map order and every interleaving.

Protocols between goroutines (the ZeroTier control plane, shared URL tests, UDP
sessions) are machines over their atomic steps: one step is one critical
section, one channel operation or one context check, and runs interleave steps
freely. Sequential code keeps its form: loops over arrays, sequences and maps,
and classes whose methods update fields. Go's map iteration order is an
arbitrary choice.

| file | models |
|---|---|
| Graphs.dfy | paths, cycles, elimination orders: the facts the loop checks share |
| GroupSort.dfy, GroupLoops.dfy | `proxyGroupsDagSort`: the topological sort of proxy groups and the loop report |
| ReferenceChecks.dfy | dialer-proxy chains and sub-rule references |
| ProxyBuild.dfy | building the sorted groups, and walks through nested groups |
| RuleMatch.dfy | `match`: first qualifying rule, Pass, Rematch rounds, unwrapping |
| ZeroTier.dfy, ZeroTierRuns.dfy, ZeroTierDevices.dfy, ZeroTierProgress.dfy | the ZeroTier control plane under its two locks: invariants, runs, devices, completed operations |
| ProbeFlights.dfy, ProbeAnswers.dfy | single-flight URL tests with abandonment and patience, and what callers return |
| UdpSession.dfy, UdpRuns.dfy, UdpDelivery.dfy | packet senders, the NAT table, concurrent Sends and Close, delivery in order |
| DnsTtl.dfy | lifetimes and TTL arithmetic of the DNS cache |
| DnsSubstitutes.dfy, DnsFallbackGraph.dfy | substitute DNS clients and their fallback graph |
| LoadBalance.dfy | jump consistent hash, consistent hashing, round robin |
| GroupMembers.dfy, GroupOrder.dfy | `GetProxies`: gathering, reordering, excluding, caching |
| FastestNode.dfy | the url-test choice with 16-bit delays |
| ReverseMap.dfy | the bounded reverse address map and its key ring |

Where the code does less than it says or suggests, the code is modelled, a
concrete case is given, and the exact or safe condition is proved:

- The comment in the loop locator says that only loops remain. The report also
  holds names that merely lie between two loops (`GroupLoops.BridgeIsReported`);
  the exact set is stated by `GroupLoops.LocateLoops`.
- `rewrapClient` is described as re-wrapping a shared transport per name server.
  It cannot peel a substitute, so a later name server on a marked address gets
  the first one's filters too (`DnsSubstitutes.SubstituteLendsItsFilters`);
  exactly when it gets only its own is stated by `DnsSubstitutes.OwnFiltersIff`.
- The url-test tolerance is added in 16 bits. A node within the tolerance is
  returned again exactly when the sum does not overflow or the node is the first
  fastest anyway (`FastestNode.StickyIffNoOverflow`, `FastestNode.OverflowDropsNode`).
- A server failure is cached for five seconds whatever TTLs its records carry,
  so a record can outlive its TTL (`DnsTtl.ServerFailureMayOutlive`); exactly
  when a stored reply is served faithfully is stated by
  `DnsTtl.StoredReplyFaithfulIff`.
- A failed rollback of the ZeroTier link is only logged, and then the link differs
  from what is published (`ZeroTierRuns.SomeRunLeavesStaleLink`); exactly when it
  does is stated by `ZeroTierRuns.PublishedLinkExact`.
- Close does not drop every packet of a UDP sender (`UdpRuns.CloseMayStrand`): a
  packet can be stranded exactly when a Send is between its two selects
  (`UdpRuns.StrandsIffStraddled`).
- A provider is read again for every filter, so an update during a call can give a
  list that no version has (`GroupMembers.TornReading`); without one the list is
  the specified one (`GroupMembers.UndisturbedListing`).

## Model

| member | source | states |
|---|---|---|
| GroupSort.BuildGraph | config/utils.go:31-59 | the list is refused exactly when an entry does not decode or repeats a name, naming the first offender; otherwise every counter is the number of references, repeats included |
| GroupSort.CountMembers | config/utils.go:52-58 | one reference is counted per listed member and unseen members become nodes |
| GroupSort.ReleaseMembers | config/utils.go:82-88 | each listed member loses one reference per listing and is queued once, when its last one goes; every lookup hits |
| GroupSort.Dequeue | config/utils.go:71-91 | one round keeps exact counters for what is left and the order invariant: nothing is eliminated before all that names it |
| GroupSort.Place | config/utils.go:74-76 | groups are written from the end of the list, in order of elimination, without touching the rest |
| GroupSort.Topological | config/utils.go:60-91 | when the queue runs dry the end of the list is exactly the eliminated groups, last eliminated first |
| GroupSort.CompleteElimination | config/utils.go:93-96 | if every name was eliminated, the list is a permutation of the input with members before the groups that name them, and the group graph is acyclic |
| GroupLoops.ResidueExact | config/utils.go:93-100 | the sort gets stuck on exactly the names that some cycle leads to |
| GroupLoops.LinkMembers | config/utils.go:109-116 | outdegree and back references of one node, with multiplicity |
| GroupLoops.FillLinks | config/utils.go:98-117 | after the rebuild every back reference list mirrors the member lists of the remaining groups; every lookup hits |
| GroupLoops.LoosenParents | config/utils.go:130-135 | each parent loses one outgoing reference per listing and is queued once; every lookup hits |
| GroupLoops.Drain | config/utils.go:126-137 | the second peel ends with exact counters and no ready node |
| GroupLoops.DrainedExact | config/utils.go:118-143 | what survives both peels is exactly what is reachable from a cycle and can reach a cycle |
| GroupLoops.LocateLoops | config/utils.go:98-144 | the report lists each such name once, for any map order |
| GroupLoops.StuckMeansCycle | config/utils.go:93-96 | the graph empties if and only if the groups form no cycle |
| GroupLoops.SortGroups | config/utils.go:15-145 | the whole function: sorted exactly when well formed and acyclic, then a permutation with members first; otherwise the right error, a nonempty loop report with every name on a cycle, and no write on a refused list |
| GroupLoops.BridgeIsReported | config/utils.go:118-144 | a concrete list with a name that is in the reported set and on no cycle |
| ReferenceChecks.HasCycle | config/utils.go:178-203 | the walk finds a cycle exactly when the chain from its start runs into one |
| ReferenceChecks.CheckLoops | config/utils.go:166-176 | accepted exactly when the dialer chains are acyclic |
| ReferenceChecks.ValidateDialers | config/utils.go:147-176 | accepted exactly when every named dialer exists and no chain loops; a refusal names a real culprit |
| ReferenceChecks.VerifyFrom | config/config.go:1144-1171 | accepted from a name exactly when no loop and no undefined name is reachable from it; a reported walk closes a cycle |
| ReferenceChecks.VerifySubRules | config/config.go:1134-1142 | accepted exactly when all sub-rule references are defined and acyclic |
| ProxyBuild.Resolve | adapter/outboundgroup/parser.go:223-233 | member names resolve exactly when all of them are already built |
| ProxyBuild.BuildGroup | adapter/outboundgroup/parser.go:77-118 | when one group can be built, and that its members and fallback are earlier entries |
| ProxyBuild.BuildGroups | config/config.go:1027-1040 | the loop succeeds exactly when each group names only base proxies and earlier groups, and then every entry is as configured |
| ProxyBuild.SortedIsBuildable | config/config.go:1003-1040 | in sorted order no reference comes too early: every group is buildable exactly when every reference exists at all |
| ProxyBuild.ParseGroups | config/config.go:1003-1040 | a configuration's groups are accepted exactly when they are well formed, acyclic and name only what exists; every entry then has the members, fallback and providers it was configured with; members added by include-all are base proxies |
| ProxyBuild.WalksAreFinite | tunnel/tunnel.go:820-832 | every walk through nested groups is bounded by the build position of its start, whatever the groups select |
| ProxyBuild.UnwrapGoesDown | constant/adapters.go:147-148 | unwrapping always leads to something built earlier |
| ProxyBuild.GroupReachesMembers | adapter/outboundgroup/parser.go:223-233 | an accepted group can lead to every proxy it names and to its fallback |
| ProxyBuild.AddGlobal | config/config.go:1042-1066 | GLOBAL offers the listed proxies in order without the Pass types, stands above all of them so that walks stay finite, and is left alone when configured |
| RuleMatch.WalkAdapter | tunnel/tunnel.go:820-832 | the first Pass or Rematch in the unwrap chain decides |
| RuleMatch.TryRule | tunnel/tunnel.go:814-840 | what one rule comes to: skipped (no match, no adapter, Pass in the chain, no UDP), taken, or a rematch |
| RuleMatch.Scan | tunnel/tunnel.go:810-841 | a round returns the earliest rule that is not skipped |
| RuleMatch.Match | tunnel/tunnel.go:804-862 | match terminates, agrees with the recursive first-match specification with rematch, and reads its result off the list that the metadata of the deciding round selects |
| RuleMatch.MatchesUnique | tunnel/tunnel.go:804-862 | that specification determines the result |
| RuleMatch.ResultExplained | tunnel/tunnel.go:842-860 | DIRECT only when nothing qualifies, a routed adapter from the first qualifying rule, a Rematch adapter only on a repeated name or failed update; at most one extra round per Rematch name |
| RuleMatch.ResultReadsSelectedList | tunnel/tunnel.go:804-872 | with a defined sub-rule name the result is the first unskipped rule of exactly that sub-rule list, else of the main rules; DIRECT only when all of that list is skipped, and then the configured DIRECT |
| RuleMatch.RematchSwitchesList | tunnel/tunnel.go:842-872 | after a Rematch with a defined target sub-rule the next round is over exactly that list |
| RuleMatch.RematchChangesTargets | adapter/outbound/rematch.go:33-40 | a Rematch sets the targets it has and leaves everything else alone |
| RuleMatch.StuckMeansRepeated | adapter/outbound/rematch.go:23-40 | since the metadata update cannot fail, a Rematch adapter is returned only when its name repeats |
| RuleMatch.AcceptedConfigurationsUnwrapDown | config/config.go:1027-1040 | an accepted configuration meets what matching needs in order to terminate |
| ZeroTier.NextKeepsInv | adapter/outbound/zerotier.go:375-1040 | every atomic step of apply, start, recovery, Close, enqueueing and invalidation keeps the control and ownership invariant |
| ZeroTier.DecideStepKeeps | adapter/outbound/zerotier.go:994-1028 | deciding keeps the invariant: a commit publishes a configuration the link already holds and leaves the replaced device with one owner |
| ZeroTier.RestoreStepKeeps | adapter/outbound/zerotier.go:995-1010 | restoring keeps the invariant: the link matches what is published exactly when it is not on record as unrestored |
| ZeroTierRuns.PublishedLinkExact | adapter/outbound/zerotier.go:934-1032 | in every run, with the lock free and a device published, the link holds the published configuration with its effective MTU if and only if no restore has failed, leaving another configuration, since the last commit or sound restore |
| ZeroTierRuns.RecordIsHistory | adapter/outbound/zerotier.go:994-1020 | the record of unrestored runtimes is exactly that history |
| ZeroTierRuns.ReadersSeePublishedLink | adapter/outbound/zerotier.go:1116-1130 | in every run without a failed restore, a data-plane reader sees the published configuration in the link |
| ZeroTierRuns.StaleAttemptRestores | adapter/outbound/zerotier.go:995-1010 | a stale attempt under a still published device restores the old link configuration |
| ZeroTierRuns.FailedRestoreLeavesStaleLink | adapter/outbound/zerotier.go:1001-1008 | if that restore fails, the lock is released over a link that does not match |
| ZeroTierRuns.SomeRunLeavesStaleLink | adapter/outbound/zerotier.go:934-1032 | whatever the options, such a state is reached by a run from the start |
| ZeroTierRuns.CommitIffCurrent | adapter/outbound/zerotier.go:994-1020 | an attempt commits exactly when device, runtime, generation and latest configuration are those of its snapshot |
| ZeroTierRuns.CommitFromUnchangedSnapshot | adapter/outbound/zerotier.go:940-1020 | from snapshot to commit, runtime, generation, device and configuration never moved |
| ZeroTierRuns.AttemptFreezes | adapter/outbound/zerotier.go:940-1032 | while an attempt lasts, a device or generation that moved does not come back |
| ZeroTierRuns.InterferenceDefeatsAttempt | adapter/outbound/zerotier.go:893-932 | an attempt during which the network or device was invalidated, or that another configuration overtook, never commits |
| ZeroTierRuns.EveryDeviceInOnePlace | adapter/outbound/zerotier.go:961-1032 | every device ever created is being built, published, with one closer, or closed, exactly one of these |
| ZeroTierRuns.ClosedForGood | adapter/outbound/zerotier.go:915-931 | a closed device is never published or closed again |
| ZeroTierRuns.ShutdownClosesEverything | adapter/outbound/zerotier.go:1341-1369 | after Close and its closers every device has been closed exactly once |
| ZeroTierRuns.EffectiveMTUInRange | adapter/outbound/zerotier.go:1042-1056 | the effective MTU respects the library limits and the option, and is stable |
| ZeroTierRuns.EffectiveMTUIsNearest | adapter/outbound/zerotier.go:1042-1056 | it is the network's own MTU where that is allowed, else the nearest allowed value |
| ZeroTierDevices.PublishedDeviceFits | adapter/outbound/zerotier.go:960-1013 | in every run a published device was created with the addresses and the effective MTU of the published configuration |
| ZeroTierDevices.CommitKeepsFittingDevice | adapter/outbound/zerotier.go:961-1029 | a commit keeps the published device if and only if it was created with the addresses and MTU the new configuration asks for; otherwise the lock holder is left to close it |
| ZeroTierDevices.InvalidatedForGood | adapter/outbound/zerotier.go:893-932 | a device taken down by an invalidation or by Close is out of use from then on, with exactly one closer |
| ZeroTierDevices.NoCommitWithoutReport | adapter/outbound/zerotier.go:899-913 | after an invalidation without retry nothing is committed until the current runtime reports a configuration |
| ZeroTierDevices.LatestWasReported | adapter/outbound/zerotier.go:587-594 | the latest configuration is the last one that the runtime current at the time reported |
| ZeroTierProgress.UndisturbedAttemptCommits | adapter/outbound/zerotier.go:934-1032 | from any idle state an undisturbed attempt publishes the latest configuration in the link, on the old device exactly when addresses and MTU are unchanged, else on a new one built for it with the old one closed |
| ZeroTierProgress.StartYieldsRuntime | adapter/outbound/zerotier.go:454-577 | a start yields a runtime that never existed, without configuration |
| ZeroTierProgress.FailedStartWithdraws | adapter/outbound/zerotier.go:454-577 | a start that fails late withdraws its runtime |
| ZeroTierProgress.StartKeepsRuntime | adapter/outbound/zerotier.go:454-577 | a start keeps an existing runtime |
| ZeroTierProgress.RecoveryReplacesRuntime | adapter/outbound/zerotier.go:781-815 | collision recovery closes the device and restarts with a fresh runtime |
| ZeroTierProgress.RecoveryLeavesNothing | adapter/outbound/zerotier.go:792-805 | without a restart nothing of the old runtime is left |
| ZeroTierProgress.RetiredCollisionIsIgnored | adapter/outbound/zerotier.go:784-791 | a collision of another runtime or address changes nothing |
| ZeroTierProgress.RetiredInvalidationIsIgnored | adapter/outbound/zerotier.go:894-932 | an invalidation by a retired runtime or of a device not in use changes nothing |
| ZeroTierProgress.CloseEndsEverything | adapter/outbound/zerotier.go:1341-1369 | Close detaches runtime and device and hands the device to a closer |
| ZeroTierProgress.ClosedStaysClosed | adapter/outbound/zerotier.go:1341-1369 | no runtime and no device ever again |
| ZeroTierProgress.ShutdownCompletes | adapter/outbound/zerotier.go:1341-1369 | from any closed state the closers can finish, and then every device ever created has been closed once |
| ZeroTierProgress.CancelStopsAttempts | adapter/outbound/zerotier.go:937-975 | after the cancel no attempt gets going, and a device being started is closed |
| ZeroTierProgress.CancelSilencesReports | adapter/outbound/zerotier.go:588-591 | after the cancel reports and invalidations have no effect |
| ProbeFlights.NextKeepsInv | adapter/hako_urltest_flight.go:64-117 | every step of every caller keeps the flight table invariant |
| ProbeFlights.OneFlightPerKey | adapter/hako_urltest_flight.go:70-83 | table entries are unfinished flights with a working leader; one question is never probed twice at once |
| ProbeFlights.FinishedOnce | adapter/hako_urltest_flight.go:102-108 | a flight is closed at most once and only after its entry is gone |
| ProbeFlights.LeaderDeletesOwnEntry | adapter/hako_urltest_flight.go:103-108 | a leader deletes exactly its own entry |
| ProbeFlights.NeverWaitsTwice | adapter/hako_urltest_flight.go:70-100 | no caller ever waits on the same flight twice |
| ProbeFlights.FlightKeyInjective | adapter/hako_urltest_flight.go:40-46 | the key determines class, URL and expected status |
| ProbeFlights.SharedAnswerFits | adapter/hako_urltest_flight.go:84-97 | a shared answer is from a finished flight for the same question, not abandoned, and not a timeout the waiter had the patience to outlast |
| ProbeFlights.LeaderFailureIsNotInherited | adapter/hako_urltest_flight.go:110-117 | from the end of a probe to its waiters: a cancelled leader's failure, or a timeout below a waiter's patience, is never returned by a live waiter |
| ProbeFlights.AnswersAgree | adapter/hako_urltest_flight.go:112-116 | a finished flight never changes, so all who share it return the same answer |
| ProbeFlights.VerdictLasts | adapter/hako_urltest_flight.go:110-117 | once its probe is over a flight is not written again, except to be closed |
| ProbeFlights.LeaderPatience | adapter/hako_urltest_flight.go:76-81 | a flight carries its leader's patience for as long as it exists |
| ProbeAnswers.AnswerIsDelivered | adapter/hako_urltest_flight.go:84-117 | in every run, what a probe returned is what its leader and every caller sharing its flight return |
| ProbeAnswers.AnswerOrigin | adapter/hako_urltest_flight.go:102-117 | every answer in a flight was returned by a probe of that flight, or stands for a probe that never returned |
| ProbeAnswers.JoinOrLead | adapter/hako_urltest_flight.go:70-83 | a caller waits on the flight of whoever leads its question, and leads a new flight if and only if nobody does |
| ProbeAnswers.ProbeReachesWaiter | adapter/hako_urltest_flight.go:84-117 | an undisturbed probe reaches a waiter: exactly when it starts over instead of returning the answer |
| ProbeAnswers.TwoCallersShareOneProbe | adapter/hako_urltest_flight.go:64-117 | from the start, two callers with one question return the answer of one probe |
| ProbeAnswers.ContextsEnd | adapter/hako_urltest_flight.go:96-97 | a context ends once, in its own way, and only an ended one lets a waiter leave without an answer |
| UdpSession.NextKeepsInv | tunnel/connection.go:104-150 | every step of Send, Process, Close and the owner keeps the table and the accounting of packets |
| UdpRuns.DeleteRemovesOwnEntry | tunnel/tunnel.go:545-552 | a Delete removes the deleting sender's own table entry |
| UdpRuns.OneDeletePerSender | tunnel/connection.go:168-174 | a sender is in the table from creation to its single Delete, and its queue stays within 128 |
| UdpRuns.EveryPacketInOnePlace | tunnel/connection.go:104-145 | every packet is in its own Send, queued, in processing, or dropped once |
| UdpRuns.SendAfterCloseDrops | tunnel/connection.go:129-145 | a Send that starts after the close never queues its packet |
| UdpRuns.CleanCloseStaysEmpty | tunnel/connection.go:118-150 | with no Send between its selects at the cancel, the drained queue stays empty |
| UdpRuns.StraddlerMayStrand | tunnel/connection.go:118-150 | from any closing state with a Send between its selects, some continuation drains, deletes and strands its packet |
| UdpRuns.StrandsIffStraddled | tunnel/connection.go:118-150 | in every reachable closing state, some continuation strands a packet if and only if a Send is between its selects |
| UdpRuns.CloseMayStrand | tunnel/connection.go:129-150 | a run from the start that ends with a stranded packet |
| UdpRuns.StrandedForGood | tunnel/connection.go:104-127 | such a packet, with the loop gone, is never dropped |
| UdpRuns.MappingNeverChanges | tunnel/connection.go:42-63 | a valid address mapping never changes in any run, nor what replies are restored to |
| UdpRuns.RestoreUndoesMapping | tunnel/connection.go:42-63 | a recorded mapping is undone for replies and touches no other address |
| UdpDelivery.PacketIsRouted | tunnel/tunnel.go:487-495 | a packet goes to the session of its key; only a key without one gets a new session, live and empty |
| UdpDelivery.SendStarts | tunnel/connection.go:129-135 | a Send goes on exactly when its session is not closed, else drops its packet |
| UdpDelivery.LiveSendQueues | tunnel/connection.go:137-144 | in every run a Send to a session that is not closed drops its packet if and only if 128 are queued, and otherwise puts it at the end |
| UdpDelivery.LoopTakesHead | tunnel/connection.go:104-116 | the loop takes the head of the queue and releases it when done |
| UdpDelivery.QueueIsFifo | tunnel/connection.go:104-145 | between any two moments of a run a queue only loses packets at its head and gains them at its end |
| UdpDelivery.FirstPacketIsProcessed | tunnel/tunnel.go:487-556 | from any state, the first packet of an unknown key opens a session, is queued, processed and released |
| UdpDelivery.CloseBegins | tunnel/connection.go:147-150 | a session that is not closed can be closed, dialled or not |
| UdpDelivery.CloseDrains | tunnel/connection.go:118-150 | what is queued when a close has begun is dropped, each packet once, and the key is free |
| UdpDelivery.TargetIsSticky | tunnel/connection.go:65-101 | once a destination is resolved, every later packet to it goes to the same target |
| UdpDelivery.MappingRecords | tunnel/connection.go:42-54 | a mapping is recorded both ways unless a valid one is there |
| DnsTtl.MinimalTtl | dns/util.go:28-36 | the least TTL, 0 for an empty section |
| DnsTtl.UpdateTtl | dns/util.go:38-46 | in place, record by record, with wrapping subtraction and clamping |
| DnsTtl.NoWrapIffLifetimeFits | dns/util.go:42-45 | the subtraction is exact at all times up to expiry if and only if the stored lifetime fits the section |
| DnsTtl.LeastTtlIsTimeLeft | dns/util.go:38-46 | served in time, the least TTL is the time left or 1, and gaps are kept |
| DnsTtl.ServedWithinBounds | dns/util.go:44 | even on wrap-around a positive TTL is served between 1 and itself |
| DnsTtl.WithoutOpt | dns/util.go:70-73 | exactly the OPT records go, the others keep their multiplicity (section 6.1.1 of RFC 6891) |
| DnsTtl.WithoutOptKeepsOrder | dns/util.go:70-73 | and their order |
| DnsTtl.Cache.Put | dns/util.go:61-88 | the reply without OPT is stored under its lifetime (five seconds for a server failure, section 7.1 of RFC 2308), or not at all for ACME questions and lifetime 0 |
| DnsTtl.OrdinaryReplyExpires | dns/util.go:61-88 | a reply that is no server failure is cached until exactly its first record expires; not at all without records, with a TTL of 0, or for an ACME challenge query |
| DnsTtl.ServerFailureExpires | dns/util.go:75-79 | a server failure is cached for five seconds |
| DnsTtl.Cache.Serve | dns/resolver.go:178-193 | in time: every section adjusted to the converted time left, whatever the second clock reading; expired: the same records with TTL 1 and a refetch |
| DnsTtl.SectionFaithful | dns/util.go:38-46 | a section at least as long-lived as the stored lifetime is served exactly and outlives nothing but through the floor of 1 |
| DnsTtl.FaithfulIffLifetimeFits | dns/util.go:38-46 | a section is served faithfully at every moment of its stored lifetime if and only if that lifetime does not exceed its least TTL |
| DnsTtl.StoredReplyFaithfulIff | dns/util.go:75-88 | all sections of a stored reply are, unless it is a server failure with a section below five seconds, and then they are not |
| DnsTtl.CachedReplyFaithful | dns/resolver.go:178-192 | from receipt to service, every section of a reply that is no server failure is served faithfully |
| DnsTtl.ServerFailureMayOutlive | dns/util.go:75-79 | a server failure, stored and served one second later: its second record still shows its full TTL |
| DnsTtl.ServeFailure | dns/resolver.go:178-192 | the same through the cache |
| DnsSubstitutes.RewrapFilters | dns/util.go:150-161 | a re-wrapped client has the name server's own filters and what peeling left |
| DnsSubstitutes.OwnFiltersIff | dns/resolver.go:605-627 | a name server gets exactly its own filters if and only if its address is unmarked, it is the first on its transport, or the first one has no filters |
| DnsSubstitutes.ServedFiltersStay | dns/resolver.go:605-614 | name servers added later change nothing for earlier ones |
| DnsSubstitutes.SubstituteLendsItsFilters | dns/resolver.go:602-635 | two name servers on one marked address, put through the builder: the second gets the first one's client subnet |
| DnsSubstitutes.Builder.Find | dns/resolver.go:605-614 | the first exact entry wins, else the first with the same transport; nothing only if there is neither |
| DnsSubstitutes.Builder.Obtain | dns/resolver.go:615-623 | a client on the right transport with the filters that the order of name servers gives it |
| DnsSubstitutes.Builder.Create | dns/resolver.go:615-632 | a new entry: obtained, wrapped when marked, nested only around older substitutes, remembered |
| DnsSubstitutes.Builder.Add | dns/resolver.go:603-633 | one client per name server, on the right transport, wrapped exactly when marked, with exactly its own filters if and only if there is nothing to inherit |
| DnsSubstitutes.Builder.Transform | dns/resolver.go:602-635 | the same for a list; every new substitute is in the result |
| DnsSubstitutes.SubstituteWrappers | dns/hako_system_substitute.go:206-222 | the substitutes at which unwrapping ends |
| DnsSubstitutes.NonSubstituteClients | dns/hako_system_substitute.go:224-251 | the clients at which it ends at a bare connection |
| DnsSubstitutes.Unwrapped | dns/hako_system_substitute.go:206-222 | unwrapping ends at a bare connection or a substitute |
| DnsSubstitutes.SetFallback | dns/hako_system_substitute.go:133-141 | a fallback list without the substitute itself |
| DnsSubstitutes.Wire | dns/hako_system_substitute.go:253-273 | main substitutes fall back to the other main clients, all others to the main list |
| DnsSubstitutes.FallbackExact | dns/hako_system_substitute.go:257-269 | a substitute outside the main list falls back to the whole main list, one at which a main client ends to all main clients that end elsewhere |
| DnsFallbackGraph.FallbackIsLower | dns/hako_system_substitute.go:263-269 | whatever a substitute falls back to contains only older substitutes |
| DnsFallbackGraph.WrapDefaults | dns/resolver.go:705-709 | default clients keep their transport and filters, are substitutes exactly when marked, and have no fallback wired |
| DnsFallbackGraph.CallGoesDown | dns/hako_system_substitute.go:150-163 | every nested exchange strictly descends |
| DnsFallbackGraph.NoCallCycle | dns/hako_system_substitute.go:143-163 | no chain of exchanges returns to its start |
| DnsFallbackGraph.NewResolver | dns/resolver.go:590-712 | every client it hands out is on its name server's transport, a substitute exactly when marked, has the filters that the order of all name servers gives it, is wired as its kind demands, and lies in an acyclic call graph |
| DnsFallbackGraph.StaleIsNotAsked | dns/hako_system_substitute.go:150-163 | while the substitutes are stale only unmarked addresses and the last resort are asked |
| DnsFallbackGraph.StaleAsksWired | dns/hako_system_substitute.go:143-163 | a stale substitute asks exactly what the clients it is wired to ask, and the last resort only if it is wired to none |
| DnsFallbackGraph.ServedFallback | dns/hako_system_substitute.go:253-269 | what a client handed out by a resolver is wired to: the main clients without a substitute if it is one of them, else the main list |
| DnsFallbackGraph.StaleAsksUnmarkedMain | dns/hako_system_substitute.go:143-163 | while stale, a substitute handed out by a resolver asks every main server whose address is not marked |
| DnsFallbackGraph.DefaultsAreAsked | dns/resolver.go:590-595 | a connection that needs a name resolved asks the default clients |
| DnsFallbackGraph.SubstitutePreference | dns/hako_system_substitute.go:150-163 | a substitute asks its live servers alone when it has any, else its own address unless stale (or an older substitute in between) |
| LoadBalance.JumpHash | adapter/outboundgroup/loadbalance.go:71-81 | the loop terminates and computes the landing bucket |
| LoadBalance.Landing | adapter/outboundgroup/loadbalance.go:71-81 | the landing bucket is in range |
| LoadBalance.NextJump | adapter/outboundgroup/loadbalance.go:75-77 | each jump exceeds the bucket it leaves |
| LoadBalance.JumpIsQuotient | adapter/outboundgroup/loadbalance.go:77 | in integers: the next bucket count is the quotient of (b + 1) * 2^31 by one more than the top 31 bits |
| LoadBalance.StaysIff | adapter/outboundgroup/loadbalance.go:74-78 | a key in bucket b does not move up to n buckets exactly when its top is at most (b + 1) / n of the range |
| LoadBalance.KeysAreNotLost | adapter/outboundgroup/loadbalance.go:76 | the key step has an inverse |
| LoadBalance.TwoBuckets | adapter/outboundgroup/loadbalance.go:71-81 | with two buckets the top of the stepped key decides, half of the range each |
| LoadBalance.GrowingMovesToNewBuckets | adapter/outboundgroup/loadbalance.go:71-81 | with more buckets a key stays or goes to a new one |
| LoadBalance.AppendingMovesOnlyToTheNewBucket | adapter/outboundgroup/loadbalance.go:71-81 | appending one bucket moves keys only to it |
| LoadBalance.ConsistentHashing | adapter/outboundgroup/loadbalance.go:158-180 | the home of the first attempt that meets a live proxy, else the first live proxy; a live one whenever there is one |
| LoadBalance.AddedProxyTakesOnlyItsOwn | adapter/outboundgroup/loadbalance.go:158-180 | appending a live proxy, through all attempts and the scan: a connection goes to it, or had a live proxy and stays there |
| LoadBalance.RoundRobin.Pick | adapter/outboundgroup/loadbalance.go:129-156 | the next alive proxy in turn; only a touching call moves the cursor; none alive leaves it where it was |
| LoadBalance.TurnListsAlive | adapter/outboundgroup/loadbalance.go:139-151 | the turn lists every alive proxy once and nothing else |
| LoadBalance.TurnRotates | adapter/outboundgroup/loadbalance.go:139-151 | serving the first of the turn moves it to the back |
| LoadBalance.PickMany | adapter/outboundgroup/loadbalance.go:129-156 | consecutive touching calls; as many as there are alive proxies return each exactly once |
| LoadBalance.CallsServeTheTurn | adapter/outboundgroup/loadbalance.go:129-156 | consecutive touching calls serve the turn in order |
| LoadBalance.FairForEver | adapter/outboundgroup/loadbalance.go:129-156 | as many calls as there are alive proxies serve each exactly once |
| GroupMembers.Pass | adapter/outboundgroup/groupbase.go:158-166 | one filter over one reading adds exactly the matching entries whose names are new |
| GroupMembers.Reorder | adapter/outboundgroup/groupbase.go:175-197 | all filters over the gathered list give the first entry per name in stable rank order, unmatched last |
| GroupMembers.FilterViews | adapter/outboundgroup/groupbase.go:155-168 | the filters over one provider, each with its own reading of it |
| GroupMembers.PassesAreRead | adapter/outboundgroup/groupbase.go:157-167 | whatever is taken was in a reading by a filter that matches it |
| GroupMembers.Gather | adapter/outboundgroup/groupbase.go:143-170 | what the providers contribute, reading by reading |
| GroupMembers.Exclude | adapter/outboundgroup/groupbase.go:199-227 | entries no pattern matches, in order |
| GroupMembers.Build | adapter/outboundgroup/groupbase.go:143-227 | gathering, reordering and both exclusions give the list specified for the readings |
| GroupMembers.GroupBase.GetProxies | adapter/outboundgroup/groupbase.go:125-238 | the list is the one specified for readings that are never older than the versions just read, also when it comes from the cache; with a provider it is never empty |
| GroupMembers.SteadyListing | adapter/outboundgroup/groupbase.go:143-227 | when every reading of a provider shows the same contents, the list is the one specified for these contents |
| GroupMembers.UndisturbedListing | adapter/outboundgroup/groupbase.go:125-238 | so with no update between its readings a call lists the contents at one version per provider |
| GroupMembers.TornReading | adapter/outboundgroup/groupbase.go:157-158 | an update between two filters can give a list that no version has |
| GroupOrder.SeveralProvidersAndFilters | adapter/outboundgroup/groupbase.go:172-197 | the order is: everything offered, first entry per name, stably sorted by first matching filter, unmatched last |
| GroupOrder.RankedIsStable | adapter/outboundgroup/groupbase.go:178-196 | within a rank the order is kept |
| GroupOrder.RankedIsSorted | adapter/outboundgroup/groupbase.go:178-196 | ranks never decrease |
| GroupOrder.RankedIsPermutation | adapter/outboundgroup/groupbase.go:178-196 | nothing is added or lost |
| GroupOrder.FirstPerNameIsFirst | adapter/outboundgroup/groupbase.go:177-187 | the first entry of a name stays, and no other entry of that name does |
| GroupOrder.RemainingKeeps | adapter/outboundgroup/groupbase.go:199-227 | exclusions remove exactly what a pattern matches |
| FastestNode.URLTest.Fast | adapter/outboundgroup/urltest.go:104-143 | the first live pinned node, else the earliest node of least current delay unless the previous node is kept on its current status |
| FastestNode.FirstFastestUnique | adapter/outboundgroup/urltest.go:118-136 | the fastest node is determined by the list |
| FastestNode.ChosenIsWithinTolerance | adapter/outboundgroup/urltest.go:118-142 | in unbounded integers the current delay of the chosen node is within the tolerance of the least of all proxies |
| FastestNode.ChosenHasAnswered | adapter/adapter.go:132-147 | while some listed node has answered the test URL in good time, the chosen node has answered it too, at most the tolerance later |
| FastestNode.ChosenIsLeast | adapter/outboundgroup/urltest.go:118-136 | without a previous node the chosen one has the least measured delay |
| FastestNode.PinObeysTestUrl | adapter/adapter.go:61-67 | a pinned node is live by its verdict for the test URL, by the general one only without it, and so is none before it |
| FastestNode.ReturnedIff | adapter/outboundgroup/urltest.go:122-142 | exactly when any previous node, listed or not, is returned again |
| FastestNode.StickyIffNoOverflow | adapter/outboundgroup/urltest.go:138-142 | a live previous node listed beyond the head and within the tolerance is returned again if and only if the 16-bit sum does not overflow or it is the first fastest |
| FastestNode.OverflowDropsNode | adapter/outboundgroup/urltest.go:139-141 | a concrete group whose previous node is one millisecond slower, far within the tolerance, and replaced |
| ReverseMap.PhysicalConn.WriteTo | adapter/outbound/physical_packet.go:31-57 | what is sent where, and that only a translated destination is recorded |
| ReverseMap.PhysicalConn.Note | adapter/outbound/physical_packet.go:42-54 | map and ring implement a first-in first-out table of at most 64 distinct keys |
| ReverseMap.PhysicalConn.ReadFrom | adapter/outbound/physical_packet.go:59-75 | replies show the recorded logical address, others their own |
| ReverseMap.StaysFor64Insertions | adapter/outbound/physical_packet.go:43-51 | an inserted address stays, in first-in first-out position, for fewer than 64 later insertions |
| ReverseMap.GoneAfter64Insertions | adapter/outbound/physical_packet.go:46-51 | the 64th evicts it |
| ReverseMap.LastWriteWins | adapter/outbound/physical_packet.go:53 | until then it stands for the last logical address written for it |
| ReverseMap.FirstStaysFor64Insertions | adapter/outbound/physical_packet.go:23-29 | the address of the opening obeys the same rule |
| ReverseMap.FirstLastWriteWins | adapter/outbound/physical_packet.go:23-54 | until its eviction it stands for the last logical address written for it, or the one of the opening |
| ReverseMap.FirstGoneAfter64Insertions | adapter/outbound/physical_packet.go:46-51 | the 64th insertion evicts it |

## Left out

- Outbound protocols, DNS transports, listeners, sniffing, process lookup, option parsing, logging and metrics: I/O, or easy members.
- LoadBalance.NextJump: takes the quotient over the reals; IEEE rounding is not modelled. Rounding is monotone and the factor is at least 1, so the one fact the results use, that a jump exceeds its bucket, survives it.
- ZeroTierRuns.PublishedLinkExact: assumes that the link applies a configuration completely or not at all, and that the node reports configurations of the joined network only.
- ZeroTierRuns.CommitFromUnchangedSnapshot: the generation is an unbounded number; its wrap after 2^64 changes is not modelled. The latest configuration may have been replaced and put back in between.
- ZeroTier.NextKeepsInv: resolver, authentication URL, network error and log state are left out; they decide nothing about devices or the link.
- GroupMembers.GroupBase.GetProxies: provider versions are unbounded; their wrap after 2^32 updates is not modelled.
- GroupMembers.SteadyListing: a sufficient condition only; a call whose readings differ may still happen to give the list of one version.
- DnsTtl.Cache.Serve: seconds are counted exactly; float64 rounding and the eviction policy of the cache are left out. What the conversion of a number out of range gives is a parameter.
- DnsSubstitutes.Builder.Transform: the marked addresses do not change during one NewResolver.
- RuleMatch.Match: for the duration of one match, what a group selects is a function of the metadata and UDP support is fixed per adapter.
- DnsFallbackGraph.StaleIsNotAsked: a batch exchange is the set of clients it may ask; which reply wins the race is left out.
- FastestNode.URLTest.Fast: liveness and delays do not change during one evaluation; the surrounding ten-second single call is left out.
- ProbeFlights.FlightKeyInjective: takes the text of a status pattern to be free of the separator, which is how the pattern prints.
- ProbeFlights.SharedAnswerFits: the group-type bypass, which never shares, and the record of the last question are left out.
- UdpSession.NextKeepsInv: packets refused before the table lookup, the write-back proxy and the sniffing wrapper are left out.
- Sticky sessions: time-dependent hashing over an LRU cache.
