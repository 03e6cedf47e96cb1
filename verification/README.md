# Fog manager: verified model

A Dafny 4.11 model of a market of fog nodes that sell function hosting, with proofs about it.
`dafny verify dfyconfig.toml` checks everything. Every file is one module of the same name.

**Reservations on a node.** `Model`, `Tracking` and `Lifecycle` describe a fog node as a state
machine whose events are single accesses to shared state: payments, provisioning, liveness checks,
finishes and cron timers interleave in any order; payments, provisioning and finishes hold the
semaphore permit, the liveness check does not. `LifecycleInvariant`, `LifecycleLedger`,
`LifecycleBooks` and `LifecycleBackend` hold the pieces of the invariant, `Occupancy` the sums they
speak of, `LifecycleTheorems`, `LifecycleReport` and `LifecycleProgress` what follows for every run.
`Sections` shows that a critical section run alone is one move on the stores, `LifecycleOutcomes`
writes out what each thread brings about when it runs alone, `LifecycleRuns` builds the runs in which
the code falls short, and `NodeService` writes the stores and the locked service as classes that are
held to those moves.

**Finding a node.** `Network` is the overlay as a finite graph and the walks a request can take.
`LatencyEstimate` is the accumulated latency and the TCP estimate. `Flood` is the propagation of an
SLA whatever the nodes accumulate and estimate; `Budget` puts the latency estimate in and relates
pruning at every hop to the end-to-end limit. `StableSort` and `MaxCpu`,
`EdgeSearch` and `EdgePlacement`, `MinCpuRandom` and `MinCpuOvershoot` are the other placements.

**Joining the overlay.** `Registry` is the market's tree with its checker and its rollback, as one
call runs alone. `RegistryAccess` is the same as the market's handlers touch it, one access at a time.
`Registration` is a state machine of registrations in flight and of handlers that interleave, from
which the overlay arises; `RegistrationInTurn` and `RegistrationOverlap` say what the registry is when
the market handles one registration after the other, and when it does not. `Deployment` puts registration, flood and auction together.

**Prices.** `Pricing` is the quadratic bid, `MarketAuction` the second-price auction, `InFlight` and
`InFlightAccess` the limit on bids per second, `SlidingWindow` the moving median and quartiles.

**Emulated network.** `ShortestPaths` and `NetworkEmulation` are the generation of latencies and rates
between all pairs of nodes, `VmPacking` the packing of VMs on hosts.

`Basics` is shared by several of these.

Numbers: memory, CPU, prices and times are `real`, times in milliseconds unless named seconds; the
in-flight counters wrap at 2^32. A square root is any function that squares back to its argument.
Backend calls, lost or unanswered requests, shuffles, the order a concurrent map yields its entries
in, and the order a sort leaves ties in are arbitrary.

Where the code does not do what it seems meant to do, the model follows the code and the exact
condition is proved:

- An SLA that asks for something and for no replica passes the capacity check and over-commits the
  node; no other does (`ProtectsIff`, `OvercommitsIff`).
- A timer may fire before its entry is queued; if the queue is empty it pops nothing, and the queue
  keeps one entry too many from then on. This happens at most once in a run (`PopIsWasted`,
  `QueueFollowsTimers`).
- A timer that overtakes an older one pops the older one's entry, and the older reservation
  disappears from the price of later bids while it is still active (`ReservationIsHidden`,
  `OvertakingHides`, `ReportCompleteIff`).
- With nothing to transfer the latency estimate is not a number and nothing is ever pruned
  (`EmptyTransfer`, `PrunesIff`).
- The accumulated packet loss starts at zero and is a product, so it stays zero (`AccumulateGrows`).
- The number of required proposals bounds the answer only up to two, or when the limit excludes every
  request (`BoundHoldsIff`).
- The market does not keep its registrations apart. Two nodes that register at the same time can both
  be rejected and leave a registry that is no tree: a rollback takes the wrong child off the list
  (`OverlapBreaks`). Handled one after the other they never do (`RegistryAgrees`); handled in any order
  they are safe only where no node is configured under a node of the market (`TreeAtRestIff`). The
  overlay itself is a tree all the same (`OverlayIsTree`).
- The registry's rollback of a child is exact only if its parent lists no other child
  (`RollbackExactIff`); registering a known node under a parent never leaves a tree behind
  (`TreeKeptIff`), registering the root again passes and orphans all other nodes (`RootKeptIff`).
- The third quartile is not the mirror image of the first when the number of samples is one over a
  multiple of four (`QuartilesMirrorIff`).
- The in-flight limit lets one bid more through than it says, and starts over after 2^32 requests
  (`AllowedIff`). A request that puts the other counter back late, after the second has changed, lets
  through as many again (`LateResetDoubles`).
- A host gets one VM more than fits as soon as a second host is filled (`OvershootIff`).
- The hop-by-hop truncation calls the accumulation with the wrong number of arguments
  (maxcpu.rs:29-30) and does not match the current types; the model gives it the neighbour's
  bandwidth as the other placements do.

## Model

| member | source | states |
|---|---|---|
| LifecycleTheorems.MutualExclusion | manager/fog_node/src/service/function.rs:92-114 | In every reachable state at most one thread is inside a critical section, and it is the one holding the permit. |
| LifecycleTheorems.LedgerMatches | manager/fog_node/src/service/function.rs:177-332 | In every reachable state of every interleaving the used RAM and CPU of a k8s node equal the sum over its Paid, Provisioned and Live records, off only by the record the permit holder has written in one store and not yet in the other; equal when the permit is free. |
| LifecycleTheorems.LedgerNeverNegative | manager/fog_node/src/repository/resource_tracking.rs:180-205 | The ledger never goes below zero, nor does the amount a finish is about to write. |
| LifecycleTheorems.SectionsFindCoherence | manager/fog_node/src/service/function.rs:92-114 | Whenever the permit can be taken, the database and the ledger are as the sections rely on: every active record is on a known node whose used amount covers it. |
| LifecycleTheorems.ReleasedExactlyOnce | manager/fog_node/src/service/function_life/mod.rs:149-235 | Each SLA is booked at most once and released at most once, whichever of timer and failed liveness check comes first; with the permit free it is booked iff it was paid and released iff it is Finished. |
| LifecycleTheorems.ActiveWillExpire | manager/fog_node/src/service/function_life/mod.rs:149-211 | Every active reservation has a sleeping timer, a payment about to create it, or a timer's finish under way. |
| LifecycleTheorems.QuietMeansEmpty | manager/fog_node/src/service/function_life/mod.rs:149-235 | Once no timer sleeps and no thread is left all used amounts are zero, everything booked is released, and only functions the backend refused to remove are still deployed. |
| LifecycleProgress.EverythingCanEnd | manager/fog_node/src/service/function_life/mod.rs:149-235 | From every reachable state some continuation without new arrivals ends with no thread and no timer, all resources given back, everything booked released, and deployed only what the backend had refused to remove before. |
| LifecycleOutcomes.ProvisionOutcome | manager/fog_node/src/service/function.rs:251-282 | A provisioning that finds the permit free and runs undisturbed deploys a Paid function that the backend accepts and records it Provisioned under its own name, the offer unchanged; otherwise nothing changes. The outcome is that of the section. |
| LifecycleOutcomes.ProvisionRequest | manager/fog_node/src/service/function_life/mod.rs:213-235 | The same from the request on: a provisioning that arrives while the permit is free and runs undisturbed. |
| LifecycleOutcomes.LiveOutcome | manager/fog_node/src/service/function.rs:116-134 | A liveness check with a live answer makes a Provisioned function Live and changes nothing else; on any other record it tries again. |
| LifecycleOutcomes.DeadOutcome | manager/fog_node/src/service/function_life/mod.rs:213-235 | Without a live answer it tries again; once timed out it goes on to finish the function. |
| LifecycleOutcomes.PaymentOutcome | manager/fog_node/src/service/function.rs:177-249 | A payment that finds the permit free and runs undisturbed goes through iff the proposal is known and all replicas fit on its node one after another; then the record is Paid, one demand is booked, one timer sleeps and one entry is queued; otherwise nothing changes. |
| LifecycleOutcomes.FinishOutcome | manager/fog_node/src/service/function.rs:284-351 | A finish makes an active record Finished and gives its demand back whatever the backend answers; a function that runs is removed iff the backend agrees; timers and queue stay. |
| LifecycleOutcomes.PaymentRequest | manager/fog_node/src/service/function_life/mod.rs:148-208 | The same from the request on: a payment that arrives while the permit is free and runs undisturbed. |
| LifecycleOutcomes.Expiry | manager/fog_node/src/repository/cron.rs:67-91 | A timer that fires with the permit free, its callback undisturbed: one timer less, the front entry dropped whatever it is, and the timer's own reservation finished and given back. |
| LifecycleTheorems.NeverOvercommitted | manager/fog_node/src/service/function.rs:190-247 | If every accepted SLA asks for a replica or for nothing, used stays strictly below available in RAM and CPU on every node with a reservation, in every run. |
| Lifecycle.SatisfiableIff | manager/fog_node/src/service/function.rs:51-64 | The capacity check accepts iff reserving the demand once for every replica, one after another, ends strictly below the available RAM and CPU. |
| LifecycleBackend.ProtectsIff | manager/fog_node/src/service/function.rs:51-64 | The capacity check covers the amount reserved afterwards, for every ledger, exactly when the SLA asks for at least one replica or demands nothing. |
| LifecycleRuns.OvercommitsIff | manager/fog_node/src/service/function.rs:190-247 | Some run in which this SLA alone is accepted ends on an over-committed node, iff the SLA asks for something and for no replica. |
| LifecycleRuns.Overcommits | manager/fog_node/src/service/function.rs:190-247 | That run: a reservation on a node whose used amount is not below the available one. |
| LifecycleTheorems.FinishedIsFinal | manager/fog_node/src/repository/function_tracking.rs:68-104 | Over any continuation of any run a record keeps or raises its rank and a Finished record never changes, even when an unlocked liveness check resumes after the finish. |
| LifecycleTheorems.BackendMatches | manager/fog_node/src/service/function.rs:251-292 | With the permit free the backend runs exactly the Provisioned and Live functions, and those whose removal it refused, all Finished. |
| LifecycleTheorems.QueueFollowsTimers | manager/fog_node/src/repository/cron.rs:67-91 | The queue is a suffix of the creation history with one entry per sleeping timer, or one more: exactly when one pop found it empty. |
| LifecycleRuns.PopIsWasted | manager/fog_node/src/repository/cron.rs:67-91 | A run that reaches such a state: the timer of a payment fires before its entry is queued. |
| LifecycleReport.ReportIsActive | manager/fog_node/src/service/function.rs:138-162 | Every reported utilisation event is an active reservation, reported once. |
| LifecycleReport.ReportCompleteIff | manager/fog_node/src/service/function.rs:138-162 | In every reachable state with the permit free and no timer's finish under way, the report holds all active reservations exactly when as many of the oldest entries as have been popped are inactive: one for each timer that fired, less the one that found the queue empty. |
| LifecycleReport.InOrderIsComplete | manager/fog_node/src/repository/cron.rs:67-91 | Timers firing in creation order leave the report exactly the active reservations, also after a wasted pop. |
| LifecycleReport.ReportWhileFinishing | manager/fog_node/src/service/function.rs:138-162 | Read entry by entry while reservations end, the report misses none that is still active afterwards and lists only such as were active when the reading began, each once. |
| LifecycleReport.OvertakingHides | manager/fog_node/src/repository/cron.rs:82-83 | A timer that fires while the entry of another active reservation stands in front takes that one out of the report, where it was before; it stays active, and its timer, if it still sleeps, goes on sleeping. |
| LifecycleRuns.ReservationIsHidden | manager/fog_node/src/repository/cron.rs:67-91 | A run that ends with nobody at work, no pop wasted and an active reservation missing from the report: two payments, and the younger timer fires first. |
| LifecycleLedger.BalancedStepAt | manager/fog_node/src/service/function.rs:177-332 | Each single access keeps the balance of ledger and records, per node and dimension. |
| LifecycleBackend.WithinStep | manager/fog_node/src/service/function.rs:190-247 | Each single access keeps used strictly below available where something is reserved. |
| Sections.PayAloneIsSection | manager/fog_node/src/service/function.rs:177-249 | The small steps of a payment run without interruption amount to one move on database and ledger. |
| Sections.FinishAloneIsSection | manager/fog_node/src/service/function.rs:284-351 | So do those of a finish, whatever the backend answers. |
| Sections.FinishUndoesPay | manager/fog_node/src/service/function.rs:177-332 | A finish after a payment restores the ledger exactly and leaves the record Finished. |
| NodeService.FunctionTracking.Insert | manager/fog_node/src/repository/function_tracking.rs:42-52 | A proposal overwrites whatever was stored under its SLA id. |
| NodeService.FunctionTracking.SavePaid | manager/fog_node/src/repository/function_tracking.rs:68-76 | Replaces the record only if it is Proposed. |
| NodeService.FunctionTracking.SaveProvisioned | manager/fog_node/src/repository/function_tracking.rs:78-86 | Replaces the record only if it is Paid. |
| NodeService.FunctionTracking.SaveLive | manager/fog_node/src/repository/function_tracking.rs:88-96 | Replaces the record only if it is Provisioned. |
| NodeService.FunctionTracking.SaveFinished | manager/fog_node/src/repository/function_tracking.rs:98-104 | Replaces any known record. |
| NodeService.ResourceTracking.SetUsed | manager/fog_node/src/repository/resource_tracking.rs:180-205 | Overwrites the used amount of a known node and nothing else; an unknown node is an error. |
| NodeService.ResourceTracking.GetUsed | manager/fog_node/src/repository/resource_tracking.rs:207-219 | The used amount of a known node. |
| NodeService.ResourceTracking.GetAvailable | manager/fog_node/src/repository/resource_tracking.rs:221-232 | The available amount of a known node. |
| NodeService.ResourceTracking.GetANode | manager/fog_node/src/service/auction.rs:82-125 | The first node of the list on which every replica can be reserved one after another with something left; none iff there is no such node. |
| NodeService.Cron.AddOneshot | manager/fog_node/src/repository/cron.rs:67-91 | The timer starts to sleep and its entry goes to the back of the queue. |
| NodeService.Cron.Expire | manager/fog_node/src/repository/cron.rs:76-84 | A sleeping timer fires and pops the front, whatever entry it is. |
| NodeService.Function.PayFunction | manager/fog_node/src/service/function.rs:177-249 | On coherent stores the method makes exactly the move of the payment section and returns the Paid record, or changes nothing. |
| NodeService.Function.ProvisionFunction | manager/fog_node/src/service/function.rs:251-282 | A Paid function that the backend accepts is deployed and recorded Provisioned; otherwise nothing changes. |
| NodeService.Function.FinishFunction | manager/fog_node/src/service/function.rs:284-351 | Makes exactly the move of the finish section, also when the removal is refused; the backend stops the function iff it is deployed by its record and the removal is accepted. |
| NodeService.Function.GetUtilisationVariations | manager/fog_node/src/service/function.rs:138-162 | One event per queue entry with an active record, in queue order, if no record changes meanwhile. |
| NodeService.EventsAreReported | manager/fog_node/src/service/function.rs:138-162 | The events carry the SLAs of the reported reservations, one for one. |
| NodeService.EventsAre | manager/fog_node/src/service/function.rs:138-162 | There is one event for each queue entry with an active record, in queue order, with the SLA on record, the node of the entry, and its creation time plus the duration. |
| LatencyEstimate.LosslessEstimate | manager/fog_node/src/service/function_life/mod.rs:293-346 | Without loss and with data to send the estimate is 2.6 times the one-way latency times (max(1, size/(33*1460)) + 1.5). |
| LatencyEstimate.LossyEstimate | manager/fog_node/src/service/function_life/mod.rs:293-346 | With loss p the estimate is 1.3 times three one-way latencies and the longer of two times: that by the window, and that by the segments, each costing sqrt(4p/3) round trips and 20 ms * min(1, 3 sqrt(6p/8)) * p * (1 + 32 p^2). |
| LatencyEstimate.EmptyTransfer | manager/fog_node/src/service/function_life/mod.rs:293-346 | Without data it is not a number, or zero when the latency is zero. |
| LatencyEstimate.AccumulateGrows | manager/model/src/view/auction.rs:53-75 | One more hop keeps the packet loss at zero and never lowers median plus uncertainty. |
| Budget.AlongSums | manager/model/src/view/auction.rs:53-75 | Along any way on which every hop has data medians and averages add up, the square of 1.349 times the uncertainty is the sum of the squared interquantile ranges, and the rate is the lowest, ten gigabytes per second at most. |
| Network.UniqueWalk | manager/fog_node/src/service/function_life/auction_placement.rs:13-115 | In a tree at most one way without turning back leads from a node to another. |
| Network.RootedIsTree | manager/fog_node/src/repository/node_situation.rs:102-114 | Nodes that list their children and their parent form a tree when parents rank below children. |
| Flood.FloodIsExact | manager/fog_node/src/service/function_life/auction_placement.rs:13-156 | On any tree, wherever the request stands and whatever the nodes accumulate and estimate, the flood ends and returns exactly one proposal for each bidding node it reaches and nothing else; it fails iff the auction of the node it stands at errs. |
| Flood.AskedOnce | manager/fog_node/src/service/function_life/auction_placement.rs:78-115 | No node is reached twice for one SLA. |
| Budget.PrunesIff | manager/fog_node/src/service/function_life/auction_placement.rs:42-63 | A hop is pruned iff the closed form of the accumulated worst case exceeds the limit; with nothing to send, only if the latency is zero and the limit negative. |
| Budget.ReachesIff | manager/fog_node/src/service/function_life/auction_placement.rs:13-76 | A node is reached iff nothing on the way fails and the estimate for the whole way meets the SLA, written out in the medians and ranges of its hops: pruning hop by hop loses nothing. With nothing to send every way does, unless the limit is negative and the first hop has no latency. |
| Budget.FloodMeetsTheSla | manager/fog_node/src/service/function_life/auction_placement.rs:13-156 | The proposals are exactly those of the bidding nodes to which a clear way leads whose end-to-end estimate meets the SLA, one each; there is no reply iff the first node errs. |
| StableSort.SortIsStable | manager/fog_node/src/service/function_life/maxcpu.rs:133-139 | The sort is a permutation, descending, and keeps the order of equal bids. |
| StableSort.TopConcat | manager/fog_node/src/service/function_life/maxcpu.rs:133-139 | Truncating two lists before joining them does not change the top of the join. |
| MaxCpu.TopTwoEverywhere | manager/fog_node/src/service/function_life/maxcpu.rs:97-141 | On every tree, truncating to two at every hop returns the two proposals that truncating the whole flood once returns, ties included, whenever it replies. |
| MaxCpu.FirstTwoOfTheFlood | manager/fog_node/src/service/function_life/maxcpu.rs:97-141 | What it returns are the two proposals of the whole flood that come first, or all if there are fewer: highest bid first, equal bids in the order of the flood. |
| MaxCpu.RepliesIff | manager/fog_node/src/service/function_life/maxcpu.rs:14-141 | It replies iff no way that it follows ends at a node that errs, or at one with a neighbour within the budget that it cannot describe or that does not answer. |
| MaxCpu.HealthyReplies | manager/fog_node/src/service/function_life/maxcpu.rs:70-95 | It replies whenever no node errs, every neighbour is described and every request is answered. |
| EdgeSearch.SortOrdered | manager/fog_node/src/service/function_life/edge_first_placement.rs:67-71 | The sorted candidates are in order of median latency, nearest or furthest first. |
| EdgeSearch.SortInTurn | manager/fog_node/src/service/function_life/edge_first_placement.rs:67-71 | Of two candidates the one of lower median (higher for furthest first) is asked first, and of two with equal medians the one listed first. |
| EdgeSearch.SearchServes | manager/fog_node/src/service/function_life/edge_furthest_placement.rs:14-138 | A neighbour's bid is that of a candidate before which no nearer one (no further one), and none as near that is listed earlier, answers with a bid; nearest first returns the node's own bid iff it has one, furthest first iff it has one and no neighbour answers with a bid. |
| EdgeSearch.SearchFinds | manager/fog_node/src/service/function_life/edge_furthest_placement.rs:14-138 | On every tree, edge-first and edge-furthest each yield a bid iff the flood in which erring nodes pass yields one, at most one, and it is one of that flood's. |
| EdgeSearch.SearchMeetsFlood | manager/fog_node/src/service/function_life/edge_furthest_placement.rs:14-138 | Either search yields a bid whenever the flood as it is does; where no node errs, only then, and it is one of the flood's. |
| EdgeSearch.SearchYieldsIff | manager/fog_node/src/service/function_life/edge_first_placement.rs:14-128 | Either search yields a bid iff some way leads to a node that bids, with every hop described, within the budget and answered; nodes on the way may err. |
| EdgePlacement.FollowUpInOrder | manager/fog_node/src/service/function_life/edge_first_placement.rs:14-96 | The loops over neighbours and sorted latencies return the first non-empty answer. |
| EdgePlacement.BidOnNewFunctionAndTransmit | manager/fog_node/src/service/function_life/edge_first_placement.rs:99-128 | The method as run computes the search that `SearchFinds` is about. |
| MinCpuRandom.AtMostRequired | manager/fog_node/src/service/function_life/mincpurandom.rs:81-174 | For any tree, shuffles and local decisions, a request for two proposals or fewer returns no more than requested. |
| MinCpuRandom.ShareRoundsUp | manager/fog_node/src/service/function_life/mincpurandom.rs:92-97 | The share of a neighbour is the number still needed by the number of neighbours, rounded up. |
| MinCpuRandom.SomeOfTheFlood | manager/fog_node/src/service/function_life/mincpurandom.rs:123-174 | Whatever is returned is one of the proposals of the flood in which erring nodes pass. |
| MinCpuRandom.SomeOfTheHealthyFlood | manager/fog_node/src/service/function_life/mincpurandom.rs:123-174 | Where no node errs it is one of the proposals of the flood as it is. |
| MinCpuRandom.ReturnedIff | manager/fog_node/src/service/function_life/mincpurandom.rs:81-174 | The reply fails iff a neighbour that is asked on some way does not answer; else it holds the bids of exactly those nodes that a way of asked neighbours leads to while proposals are needed, each neighbour being asked for its rounded-up share. |
| MinCpuOvershoot.BoundHoldsIff | manager/fog_node/src/service/function_life/mincpurandom.rs:92-108 | For every SLA, the requested number bounds the answer on every overlay iff it is two or less, or there is data to send and the limit is negative; the market asks for two. |
| MinCpuOvershoot.CentreBids | manager/fog_node/src/service/function_life/mincpurandom.rs:92-108 | Asked for n + 1 proposals, n at least two, the centre of n arms of two nodes returns 2 n, for any shuffle that keeps the order and hops too light to be pruned. |
| Registry.FogNode.CheckTree | manager/market/src/repository/fog_node.rs:18-67 | The stack-based check ends, succeeds iff there is one root and links agree wherever the children lists lead from it, and on a tree visits every node exactly once. |
| Registry.FogNode.AppendNewChild | manager/market/src/repository/fog_node.rs:85-162 | Run alone, succeeds iff the parent is known and the enlarged registry passes the check; otherwise what the rollback leaves. The check ends after any history of registrations. |
| Registry.FogNode.AppendRoot | manager/market/src/repository/fog_node.rs:164-185 | Run alone, keeps the root iff the check passes, else removes it; the check ends here too. |
| Registry.FreshChildAccepted | manager/market/src/repository/fog_node.rs:85-115 | From a valid tree a fresh id under a known parent passes the check and keeps one root, mutual links, no repeated child and every node reachable. |
| Registry.TreeKeptIff | manager/market/src/repository/fog_node.rs:85-162 | From a valid tree a registration under a known parent leaves a valid tree behind iff the id was not registered before. |
| Registry.RootKeptIff | manager/market/src/repository/fog_node.rs:164-185 | From a valid tree, registering an id as a root leaves a valid tree behind iff the id was not registered before or was the only node. |
| Registry.ChildCheckable | manager/market/src/repository/fog_node.rs:33-64 | Whatever id is registered under whatever known parent, there is still at most one root and the check of the enlarged registry ends. |
| Registry.RolledBackCheckable | manager/market/src/repository/fog_node.rs:116-159 | The same is true of what the rollback of that child leaves. |
| Registry.RootCheckable | manager/market/src/repository/fog_node.rs:164-185 | The same is true when any id is registered as a root, whether it is kept or removed: the check ends in every history. |
| Registry.SecondRootRejected | manager/market/src/repository/fog_node.rs:164-185 | A fresh second root is rejected and the registry is restored exactly. |
| Registry.RollbackExactIff | manager/market/src/repository/fog_node.rs:116-159 | The rollback of a fresh child restores the registry iff its parent lists no other child. |
| RegistryAccess.CheckAlone | manager/market/src/repository/fog_node.rs:18-67 | Access by access, with nobody else at work, the check ends and passes iff the registry has one root and agreeing links from there. |
| RegistryAccess.AppendAlone | manager/market/src/repository/fog_node.rs:85-185 | Access by access, with nobody else at work, a registration leaves and answers what the methods do. |
| RegistryAccess.MissingEntry | manager/market/src/repository/fog_node.rs:32-61 | When another handler has removed an entry meanwhile: a child looked for and missing rejects the registration and undoes it; a lookup that is unwrapped ends the handler where it stands, and what it added stays. |
| Registration.NodeSituation.Register | manager/fog_node/src/repository/node_situation.rs:22-24 | Records a child with its description. |
| Registration.NodeSituation.GetFogNodeNeighbor | manager/fog_node/src/repository/node_situation.rs:26-57 | Describes exactly the recorded children, each as it was recorded, and the parent. |
| Registration.NodeSituation.GetNeighbors | manager/fog_node/src/repository/node_situation.rs:102-114 | Lists exactly the children, in any order and once each, and the parent last. |
| Registration.NodeLife.RegisterChildNode | manager/fog_node/src/service/node_life.rs:25-67 | Records the child only at the parent it names, forwards the request unchanged, and refuses a market node. |
| RegistrationInTurn.RegistryAgrees | manager/market/src/service/fog_node_network.rs:17-70 | If the market handles its registrations one after the other, then after any run, with requests lost, retried and interleaved on their way, its idle registry is empty or a valid tree, holds exactly the accepted nodes, and lists under each exactly those of them that the node has recorded itself. |
| RegistrationInTurn.AcceptedIff | manager/market/src/repository/fog_node.rs:85-185 | On a tree a handler that works alone accepts a node that is not registered iff its parent is, or as a root iff nothing is; a rejection changes nothing. |
| RegistrationOverlap.TreeAtRestIff | manager/market/src/repository/fog_node.rs:85-185 | With registrations handled at the same time, their accesses interleaved in any way, the idle registry is empty or a tree in all runs iff no node is configured under a node of the market. |
| RegistrationOverlap.OverlapBreaks | manager/market/src/repository/fog_node.rs:94-159 | From every tree the market reaches, two nodes waiting to register under one parent can both be rejected and leave no tree: a registered node off its parent's list, and a listed one that is not registered. |
| Registration.EntriesAreTrue | manager/market/src/repository/fog_node.rs:85-185 | However the registrations interleave, an entry names the parent its node is configured with, which has recorded the node, and lists only nodes configured under its own. |
| Registration.OverlayIsTree | manager/fog_node/src/service/node_life.rs:25-104 | After any run, however the market's handlers interleave, the nodes that can be asked, with the neighbours they list, form a tree that holds every node of the registry. |
| Deployment.RegisteredFlood | manager/market/src/repository/node_communication.rs:40-60 | After any run of registrations an SLA handed to a registered node floods a tree, exactly as `FloodIsExact` says, asking no node twice. |
| Deployment.CheapestOfferWins | manager/market/src/service/auction.rs:47-71 | The auction over those proposals chooses a node the SLA allows, none such asks less, and the price is what one of them asks. |
| Pricing.QuoteIsExtraCost | manager/fog_node/src/service/auction.rs:199-236 | The bid is the electricity price times the extra cost aa*u^2+bb*u per second of adding the share on top of the pending reservations for the duration, plus 2*aa*share times what the reservations use after it. |
| Pricing.QuoteCovers | manager/fog_node/src/service/auction.rs:199-236 | The bid is never below that extra cost, and equal to it iff every reservation that uses CPU ends within the duration. |
| Pricing.LoadWithinIs | manager/fog_node/src/service/auction.rs:201-227 | Summing the load second by second or reservation by reservation gives the same. |
| Pricing.ArePendingOnce | manager/fog_node/src/service/auction.rs:204-227 | The events determine the pending reservations: the share times the node's CPU is the SLA's, and the seconds s are such that 1000 s milliseconds fit into what is left and 1000 (s + 1) do not. |
| Pricing.Auction.SumUtilisation | manager/fog_node/src/service/auction.rs:200-227 | The loop sums share times whole seconds left over those reservations, or fails iff an event is on an unknown node. |
| Pricing.Auction.ComputeBid | manager/fog_node/src/service/auction.rs:178-257 | No bid iff no node has room; it fails iff an event is on an unknown node; else the first node with room is chosen, the price is the covering price of the SLA there over those reservations, and it is a bid iff above 0.000001. |
| MarketAuction.Auction | manager/market/src/repository/auction.rs:25-39 | None iff there is no bid; else a lowest bid wins at the lowest of the others, or at its own when alone, however ties are sorted. |
| MarketAuction.PriceIsFixed | manager/market/src/repository/auction.rs:25-39 | Winning bid and price depend on neither input order nor tie-breaking, and the price is not below the bid. |
| MarketAuction.TruthIsBestIff | manager/market/src/repository/auction.rs:25-39 | Bidding the true cost is weakly dominant for every tie-breaking iff there is a competitor. |
| InFlight.Limiter.CheckInFlight | manager/fog_node/src/service/auction.rs:385-424 | One request advances its parity's counter, resets the other, and is allowed iff the old count is within the limit. |
| InFlight.AllowedIff | manager/fog_node/src/service/auction.rs:385-424 | The n-th request (from zero) of an uninterrupted run of one parity is let through iff n modulo 2^32 is at most the limit. |
| InFlight.SameParityBound | manager/fog_node/src/service/auction.rs:385-424 | Of requests in a row of one parity at most limit + 1 pass, for every 2^32 of them. |
| InFlight.SecondBound | manager/fog_node/src/service/auction.rs:385-424 | With a clock that never goes back and requests that are handled one after the other at most limit + 1 pass in any one second, for every 2^32 requests of that second. |
| InFlightAccess.TogetherIsAfter | manager/fog_node/src/service/auction.rs:385-424 | With nothing between them the two accesses move the counters as the method does. |
| InFlightAccess.BoundBetweenResets | manager/fog_node/src/service/auction.rs:385-424 | With the two accesses of a request apart and interleaved in any way, at most limit + 1 pass for every 2^32 requests as long as no request of the other parity puts their counter back. |
| InFlightAccess.LateResetDoubles | manager/fog_node/src/service/auction.rs:385-424 | For every limit and second, a trace in which one late reset lets through twice limit + 1 in one second. |
| SlidingWindow.RingOrderedSkipList.Insert | manager/model/src/domain/moving_median.rs:25-37 | Keeps ring and ordered list the last samples, in order of arrival and ascending; the oldest is always found for removal. |
| SlidingWindow.MovingMedian.Update | manager/model/src/domain/moving_median.rs:60-62 | Appends the sample to the history. |
| SlidingWindow.OrderedIsSortedWindow | manager/model/src/domain/moving_median.rs:25-41 | After any updates the ordered list is the sorting of the last min(n, w) samples. |
| SlidingWindow.QuartilesRank | manager/model/src/domain/moving_median.rs:82-114 | With four samples or more a quarter lies at or below the first quartile and three quarters at or above it, conversely for the third, and half on either side of the median; with fewer there are none. |
| SlidingWindow.QuartilesAre | manager/model/src/domain/moving_median.rs:64-125 | Quartiles and median are the sample at their index or the mean of it and the one before: the quartiles when the number of samples is a multiple of four or one over, the median when it is even; the range is their difference. |
| SlidingWindow.QuartilesOrdered | manager/model/src/domain/moving_median.rs:82-125 | First quartile, median and third quartile ascend, and their range is between zero and maximum minus minimum. |
| SlidingWindow.QuartilesMirrorIff | manager/model/src/domain/moving_median.rs:82-114 | Samples with signs turned turn the median; they swap the quartiles iff the number of samples is not one over a multiple of four or two samples agree. |
| SlidingWindow.StatisticsOfWindow | manager/model/src/domain/moving_median.rs:48-125 | After any updates all statistics are those of the sorted window and rank as they should among its samples. |
| ShortestPaths.Dijkstra | testbed/definitions.py:617-646 | The search ends and reports, for exactly the reachable vertices, the least latency over all walks and the rate, a gigabit at most, of a walk that has it; the heap is emptied in ascending order. |
| ShortestPaths.RelaxEdges | testbed/definitions.py:638-644 | One turn keeps every reached vertex queued at its distance or relaxed, and makes progress unless nothing changes; stale entries change nothing. |
| ShortestPaths.NoShorterWalk | testbed/definitions.py:630-646 | With all edges relaxed no walk is shorter than the distance. |
| NetworkEmulation.Adjacency.Fun | testbed/definitions.py:588-599 | Adds both directions of every link of the tree and nothing else. |
| NetworkEmulation.GenNet | testbed/definitions.py:602-607 | The graph holds those links and the outward ones of the IoT emulation; all others go both ways. |
| NetworkEmulation.SameBothWays | testbed/definitions.py:602-654 | The latency reported between two nodes other than the IoT emulation is the same both ways. |
| VmPacking.GetNumberVms | testbed/definitions.py:657-691 | One for the market and one for each host the packing takes; an error iff some VM does not fit an empty host. |
| VmPacking.AssignGroup | testbed/integration.py:188-223 | The VMs of one flavour are assigned in order, each host requested for the VMs assigned to it. |
| VmPacking.AssignVmToHosts | testbed/integration.py:177-225 | Every VM is assigned once, identifiers are fresh, the hosts are as many as foretold and as filled as the greedy rule says; an error iff some VM does not fit an empty host. |
| VmPacking.AttributionsMatch | testbed/integration.py:177-225 | With distinct names every VM is attributed a requested host and every host is requested for exactly the VMs attributed to it. |
| VmPacking.HostsCount | testbed/definitions.py:668-690 | n VMs of which m fit on a host take (n + 1)/(m + 1) hosts, rounded up. |
| VmPacking.OvershootIff | testbed/integration.py:199-214 | Some host holds more than fits, one VM more, iff there are 2 m + 1 VMs or more. |
| VmPacking.AttributesRoles | testbed/integration.py:228-232 | The k-th VM of an identifier gets the k-th host obtained for it; an error iff too few were obtained. |
| VmPacking.RolesAreExclusive | testbed/integration.py:228-232 | If no host was obtained twice, no two VMs get the same host. |
| VmPacking.RolesSuffice | testbed/integration.py:228-232 | There is a host for every VM if as many were obtained for each identifier as VMs carry it. |

## Left out

- HTTP handlers and clients, OpenFaaS, Kubernetes metrics, tracing and InfluxDB export: metric writes always succeed, backend calls succeed or fail arbitrarily.
- Rounding, overflow and NaN of floating-point numbers, except where a division by zero decides a comparison (`LatencyEstimate`); overflow of rational quantities.
- Parsing and serialization of quantities: depends on library parsers.
- `cloud_only*`, `edge_ward_v2` and `edge_ward_v3`: unfinished or not in step with current types; `edge_ward` is a simpler chain walk.
- `RollingAvg`, `ExponentialMovingAverage`, `PacketLossRing`, linear bids, bid reduction on the data source, the CPU bids of the maxcpu and mincpurandom features and the random auction: one formula or one random choice each, which no property stated here depends on.
- Cancelled requests and clock skew between threads.
- A registration whose success is reported back but lost: a node that has registered does not register again.
- Fog nodes that restart and forget the children they recorded.
- Whether a check of the registry ends while other registrations go on adding nodes.
- The periodic jobs of the cron service.
- Truncation of a reservation's end to whole milliseconds; the whole seconds of the price are modelled.
- NodeService.Function.GetUtilisationVariations: reads one snapshot of the records, though the source looks them up one by one; `ReportWhileFinishing` says how far that can differ.
- A failing deployment that leaves the function deployed all the same: a failure deploys nothing.
- SLA ids used twice and negative demands or sizes: a proposal enters a node under an unused id, since ids are minted per auction and `AskedOnce` shows that a node is asked once about each; the source checks none of them.
- `adjacency` lookups of a vertex without an entry add an empty entry in the source, which only matters while the table is iterated over.
- The Go proxy, load generator, functions, plots and deployment files.
