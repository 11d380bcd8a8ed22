# A verified model of kpng

kpng keeps a cluster-wide store of services and endpoints, derives diffs from it, and has backends turn those
diffs into kernel rules or proxies. This project models the parts where incremental state has to agree with a
simple description of it over every run, and proves that agreement with Dafny 4.11.

Verify everything with `dafny verify dfyconfig.toml`.

| files | what they model |
|---|---|
| `StoreKeys`, `ProxyStore`, `ProxyTransactions`, `ProxyTx` | the store's ordered tree, its two endpoint indexes, and every transaction operation |
| `ProxyProtocol`, `ProxyWatchers` | updaters, watchers and Close as a step machine over the RW lock, the mutex and the condition variable |
| `NftRules`, `NftCompiler`, `NftTables`, `NftMeaning`, `NftAffinity`, `NftRender` | nft rules as an AST with a packet evaluator, the compiler, what a packet meets in the compiled table, and client affinity over time |
| `ServiceEvents` | the listener that turns service updates into port, IP, IP-port, policy and affinity events |
| `DiffStore`, `AnyLeaf`, `LightDiffStore` | the two diff stores and the counter leaf |
| `Coalescing`, `PortAllocator`, `RoundRobin` | the userspace proxy: change coalescing, the port range allocator with its filler, the balancer with sticky sessions |
| `Probability`, `SaveLines`, `SaveTables`, `EndpointsMerge` | the iptables backend: the probability ladder and its cache, the save-data parser and the line printer, batched endpoint merging |
| `IPSets` | canonical IP sets |
| `Scans`, `ByteStrings`, `StringTrees`, `Options` | ordered trees with early-stopping scans, Go's string order, walks through a tree, and values that may be missing |

Conventions. A btree is a map together with the ascending order of its keys; the scans "ascend from a key, stop at
the first mismatch" are kept as they are. Hashes are parameters, injective or non-zero only where a statement says
so. Objects that the code updates in place are classes whose methods are proved against functions on values, and the
properties are proved about those functions. Where the code does not always meet a property, the exact condition is
an if-and-only-if; the main failures are also shown at a concrete input.

Where the code and its documentation differ, the model follows the code:

- `client/serviceevents/service-events.go` documents Add calls before Delete calls for ports and IP-port pairs; the
  code makes the Delete calls first.
- The end of a traffic policy is reported with the current service, so the deletion of a service reports it without
  one (`ServiceEvents.RunExactThroughout` states when a replica stays exact).

## Model

| member | source | states |
|---|---|---|
| `StoreKeys.LessIsStrictTotal` | server/proxystore/kv.go:51-68 | the key order of the tree is a strict total order on all five fields |
| `StoreKeys.OrderedAscends` | server/proxystore/kv.go:51-68 | a walk through the tree goes in strictly ascending key order |
| `StoreKeys.SetScanIsFilter` | server/proxystore/proxystore.go:136-146 | the early-stopping scan of one set visits exactly its entries, in key order |
| `StoreKeys.ServiceScanIsFilter` | server/proxystore/proxystore.go:268-284 | the early-stopping scan of one service's endpoints visits exactly those entries, in key order |
| `StoreKeys.PathRoundTrip` | server/proxystore/kv.go:42-49 | setting a path gives back the key it was made from, if and only if no field holds the separator |
| `StoreKeys.HexRoundTrip` | server/proxystore/proxystore.go:343 | the hexadecimal hash in a key determines the hash |
| `ProxyTx.Tx.constructor` | server/proxystore/proxystore.go:73-81 | a transaction starts on the store's data with no changes counted |
| `ProxyTx.Tx.Each` | server/proxystore/proxystore.go:136-146 | exactly the entries of the set are handed out in key order, up to the first refusal of the callback |
| `ProxyTx.Tx.EachEndpointOfService` | server/proxystore/proxystore.go:268-284 | exactly the values of the service's entries, in key order |
| `ProxyTx.Tx.Reset` | server/proxystore/proxystore.go:149-163 | every entry goes and every flag is cleared; emptying a tree that had entries and clearing each set flag count as changes |
| `ProxyTx.Tx.Set` | server/proxystore/proxystore.go:165-175 | an entry with the same hash is left alone, otherwise the entry is stored and a change counted |
| `ProxyTx.Tx.Del` | server/proxystore/proxystore.go:177-183 | the entry is removed, and a change counted if there was one |
| `ProxyTx.Tx.SetSynced` | server/proxystore/proxystore.go:230-237 | the flag is set, and a change counted if it was not |
| `ProxyTx.Tx.SetEndpoints` | server/proxystore/proxystore.go:287-371 | the loops hash the endpoints, collect and delete the unseen ones and store the new ones, as the specification function does |
| `ProxyTx.Tx.DelEndpoints` | server/proxystore/proxystore.go:373-404 | the loops collect and delete the source's entries, as the specification function does |
| `ProxyTx.Tx.MoveEndpoint` | server/proxystore/proxystore.go:406-461 | an endpoint with a new hash leaves its old entries and gets new ones |
| `ProxyTx.ClearFlags` | server/proxystore/proxystore.go:149-163 | all flags are false afterwards and the count is the number that were true |
| `ProxyTx.CollectDoomed` | server/proxystore/proxystore.go:308-335 | the list to delete is made of both index entries of each visited endpoint whose hash was not seen |
| `ProxyTx.HashAll` | server/proxystore/proxystore.go:290-306 | every endpoint gets the hash of its content and the seen set is exactly those hashes |
| `ProxyStore.VisitsSource` | server/proxystore/proxystore.go:311-335 | the scan from the source's first key reaches every by-source entry of it, whatever else it runs into |
| `ProxyStore.DoomedExactly` | server/proxystore/proxystore.go:308-339 | both deletion passes remove the unseen endpoints of the source from both indexes and nothing else |
| `ProxyStore.AddOneIndexed` | server/proxystore/proxystore.go:341-371 | storing an endpoint keeps the indexes in correspondence, if and only if the source does not file it under another service name |
| `ProxyStore.AddAllIndexed` | server/proxystore/proxystore.go:341-371 | the same for a whole list of named endpoints |
| `ProxyStore.AddAllFit` | server/proxystore/proxystore.go:341-371 | the same for any list: a named endpoint agrees in name with the tree and with the list before it; one without a name finds its by-source key in the tree or in a named endpoint before it |
| `ProxyStore.RawSetIndexed` | server/proxystore/proxystore.go:165-208 | a raw write keeps the indexes in correspondence, if and only if its key is no endpoint key or the entry already has the hash written |
| `ProxyStore.RawDelIndexed` | server/proxystore/proxystore.go:177-216 | a raw deletion keeps the indexes in correspondence, if and only if its key is no endpoint key or is not in the tree |
| `ProxyTransactions.SetEndpointsOfSourceExact` | server/proxystore/proxystore.go:287-371 | the source holds exactly the given hashes, all other sources are untouched, and the indexes correspond if and only if names agree |
| `ProxyTransactions.SetEndpointsOfSourceContents` | server/proxystore/proxystore.go:287-371 | with hashes that do not collide the source holds exactly the given endpoints, contents and all |
| `ProxyTransactions.DelEndpointsOfSourceExact` | server/proxystore/proxystore.go:373-404 | exactly the source's endpoints go, from both indexes |
| `ProxyTransactions.SetEndpointExact` | server/proxystore/proxystore.go:406-461 | one endpoint moves from its old to its new keys, nothing else changes, and the indexes correspond if and only if names agree |
| `ProxyTransactions.RenamedServiceGoesStale` | server/proxystore/proxystore.go:287-371 | a source whose service is renamed leaves its old by-service entry behind |
| `ProxyTransactions.ApplyIndexedExactly` | server/proxystore/proxystore.go:149-461 | every operation on every tree, raw writes and unnamed endpoints included: the two indexes still correspond, if and only if the operation meets a condition on its arguments and the tree |
| `ProxyTransactions.RunIndexedExactly` | server/proxystore/proxystore.go:149-461 | over every sequence of operations the indexes correspond after each one, if and only if each one meets its condition |
| `ProxyTransactions.RawWriteBreaksIndex` | server/proxystore/proxystore.go:185-208 | one raw write of a new endpoint leaves it in one index only |
| `ProxyTransactions.RawPairIndexed` | server/jobs/api2store/api2store.go:112-125 | two raw writes of the two entries of an endpoint, in either order, keep the correspondence, if and only if the source does not file it under another service name |
| `ProxyTransactions.RunKeepsIndex` | server/proxystore/proxystore.go:149-461 | in particular every sequence keeps the correspondence in which each source keeps one service name and no raw write or deletion touches an endpoint key |
| `ProxyTransactions.ApplyCounts` | server/proxystore/proxystore.go:149-183 | every operation that counts no change leaves the tree and the flags alone |
| `ProxyTransactions.RunCounts` | server/proxystore/proxystore.go:73-90 | every transaction with no counted change left the tree and the flags alone |
| `ProxyProtocol.EveryRunKeepsInv` | server/proxystore/proxystore.go:66-121 | every interleaving of updaters, watchers and Close keeps the lock, wake-up, publication and data invariants |
| `ProxyProtocol.NoLostWakeup` | server/proxystore/proxystore.go:66-121 | unless a thread is just about to broadcast, no watcher sleeps while its condition is true |
| `ProxyProtocol.ViewsAreSerial` | server/proxystore/proxystore.go:104-121 | every View returns closed, or a later revision with exactly the data of the transactions up to it |
| `ProxyProtocol.SameRevisionSameData` | server/proxystore/proxystore.go:104-121 | two Views that return the same revision saw the same tree and flags |
| `ProxyProtocol.RevisionCountsChanges` | server/proxystore/proxystore.go:73-90 | the revision is the number of transactions that counted a change among all that ran, less the one being published; those that raised it each count a change where they stand and account for all of the data |
| `ProxyProtocol.CloseIsFinal` | server/proxystore/proxystore.go:66-71 | once Close is about to return the store stays closed and no watcher sleeps, whatever happens later |
| `ProxyProtocol.NoDeadlock` | server/proxystore/proxystore.go:66-121 | while a call is under way some thread can take a step |
| `ProxyWatchers.StoreTxnsFaithful` | server/proxystore/proxystore.go:73-90 | the store's transactions meet what the protocol asks of a transaction |
| `ProxyWatchers.ReplayIndexedExactly` | server/proxystore/proxystore.go:73-90 | the indexes correspond after every operation of a sequence of transactions, if and only if each operation meets its condition |
| `ProxyWatchers.NamedLogKeeps` | server/proxystore/proxystore.go:73-90 | transactions with one service name per source and no raw endpoint writes meet all conditions |
| `ProxyWatchers.ViewsSeeWholeTransactions` | server/proxystore/proxystore.go:104-121 | in every interleaving and for any transactions a View sees exactly the outcome of the transactions up to its revision; both indexes corresponded all the way there, if and only if every operation met its condition |
| `NftRules.NftKeyInjective` | backends/nft/nft.go:357-364 | keys written with the byte-order work-around tell n indexes apart, if and only if n is at most 2^24 |
| `NftCompiler.EpChainMeans` | backends/nft/endpoint.go:35-92 | the chain of an endpoint sends the packet to the endpoint's own target port, or passes if it has none |
| `NftCompiler.RecentRulesMean` | backends/nft/endpoint.go:43-54 | the affinity rules send the packet to the first endpoint that has the port and whose recent set holds the client, and let it pass if there is none |
| `NftCompiler.VmapMeans` | backends/nft/svc-chain.go:104-121 | the map sends the packet to the endpoint of the number drawn |
| `NftCompiler.DnatChainMeans` | backends/nft/svc-chain.go:41-102 | the service's nat chain gives the first endpoint that has the port and remembers the client, else the drawn one of those that have the port; nothing if there is none, or if the client is not remembered and the port equals its node port |
| `NftCompiler.FilterChainMeans` | backends/nft/svc-chain.go:41-102 | the service's filter chain rejects a port it has a rule for, if and only if no endpoint has it |
| `NftCompiler.UnaskedChains` | backends/nft/svc-chain.go:41-102 | a packet for which the service has no rule passes both chains |
| `NftTables.ServiceFrame` | backends/nft/render-context.go:67-144 | rendering a service leaves the chains of other services alone |
| `NftTables.AllInstalled` | backends/nft/render-context.go:67-144 | every well-formed service ends up with all its chains in their final form, whatever is rendered after it |
| `NftMeaning.DispatchMeans` | backends/nft/render-context.go:90-144 | a packet to an address of one service runs through that service's chain |
| `NftMeaning.ServicePacket` | backends/nft/svc-chain.go:41-121 | for every draw and every content of the recent sets, where a packet to a service IP and port goes: to an endpoint that has the port, at its own target port, the remembered one before the drawn one; without such an endpoint the filter path rejects it |
| `NftMeaning.RememberedClient` | backends/nft/endpoint.go:43-54 | whatever is drawn, a client in the recent set of exactly one endpoint with the port goes to that endpoint |
| `NftMeaning.OneDrawPerEndpoint` | backends/nft/svc-chain.go:104-121 | in the compiled table, for a client that no endpoint remembers, exactly one draw sends the packet to a given endpoint that has the port |
| `NftMeaning.NodePortPacket` | backends/nft/nft.go:201-247 | a local packet to a node port fares the same by way of the node port chains |
| `NftMeaning.UnaskedPacket` | backends/nft/nft.go:201-247 | a packet to a service IP for which there is no usable port passes both paths |
| `NftMeaning.TranslatedExactly` | backends/nft/svc-chain.go:80-100 | with and without affinity, a packet to a service IP and port is translated, if and only if some endpoint has the port and either the port differs from its node port or one of those endpoints remembers the client |
| `NftAffinity.PacketRecords` | backends/nft/endpoint.go:35-54 | a packet adds its client to the recent set of the endpoint it is sent to, if the service has affinity, and changes no other entry |
| `NftAffinity.AffinityHolds` | backends/nft/endpoint.go:35-54 | in the compiled table a new client is sent to one endpoint; all its later packets to the service go there, whatever is drawn, whatever others send and whatever else expires, until its entry expires or it asks the service for a port that the endpoint lacks |
| `NftAffinity.LackedPortMovesClient` | backends/nft/endpoint.go:35-54 | a client that asks for a port its endpoint lacks is remembered by a second one, which then takes its packets if it comes first |
| `NftRender.FindTargetPort` | api/localv1/endpoint.go:32-43 | the search loop finds the endpoint's own port for a service port, 0 if it has none |
| `NftRender.CollectEpIPs` | backends/nft/render-context.go:153-177 | the loop collects the first IP of each endpoint that has one |
| `NftRender.Subset` | backends/nft/svc-chain.go:55-62 | the loop keeps the endpoints on which the port is available |
| `NftRender.WriteDnatRules` | backends/nft/endpoint.go:56-89 | the loops write one rule for each port that the endpoint serves |
| `NftRender.RenderContext.WriteEndpointChain` | backends/nft/endpoint.go:35-92 | the chain buffer of the endpoint gets exactly the rules of its chain |
| `NftRender.RenderContext.WriteVmap` | backends/nft/svc-chain.go:104-121 | the map of the given endpoints is written with the keys of their indexes |
| `NftRender.RenderContext.WriteSvcChain` | backends/nft/svc-chain.go:41-102 | the nested loops write the chains that the compiler function describes |
| `NftRender.RenderContext.AddServiceEndpoints` | backends/nft/render-context.go:67-144 | one service is added as the compiler function describes |
| `NftRender.RenderContext.AddDispatchChains` | backends/nft/nft.go:201-247 | the entry chains are added as the compiler function describes |
| `NftRender.RenderContext.Render` | backends/nft/nft.go:92-199 | rendering all services gives the compiled table |
| `ServiceEvents.SlicesLen` | client/serviceevents/diff.go:28-53 | the nested loops report exactly the previous values not in the current list, then the current values not in the previous list |
| `ServiceEvents.Combine` | client/serviceevents/service-events.go:188-202 | the nested loops build every pair of an IP and a port |
| `ServiceEvents.ServicesListener.Diff` | client/serviceevents/service-events.go:104-249 | the calls made are those of the ports, the added IPs, the pairs, the flags, and last the deleted IPs |
| `ServiceEvents.ServicesListener.SetService` | client/serviceevents/service-events.go:81-89 | the service is stored and the calls of its update are made |
| `ServiceEvents.ServicesListener.DeleteService` | client/serviceevents/service-events.go:92-102 | a stored service is removed and its calls made; an unknown one makes none |
| `ServiceEvents.EventsAre` | client/serviceevents/service-events.go:104-249 | an update fires exactly what is new and what is gone, as far as a listener is registered |
| `ServiceEvents.StepExact` | client/serviceevents/service-events.go:81-249 | replaying one call's events keeps a replica exact, if and only if the call does not delete a service with a traffic policy on |
| `ServiceEvents.RunExactButPolicies` | client/serviceevents/service-events.go:81-249 | replaying the events of any run gives exactly the ports, IPs, IP-port pairs and affinities of the stored services |
| `ServiceEvents.RunExactThroughout` | client/serviceevents/service-events.go:274-302 | with traffic policies the replica is exact after every call of a run, if and only if no call deletes a service that has one on |
| `ServiceEvents.DeletedPolicyStays` | client/serviceevents/service-events.go:274-302 | a run after which no service is stored and a listener still has a policy on |
| `ServiceEvents.EveryPrefixCovered` | client/serviceevents/service-events.go:151-249 | at every prefix of the event trace of every run each live (kind, ip, port) has its (kind, ip) live |
| `DiffStore.Store.GetItem` | client/diffstore/diffstore.go:52-71 | the item exists afterwards and is touched, and is counted once per cycle |
| `DiffStore.Store.Done` | client/diffstore/diffstore.go:91-103 | every touched item gets the hash of its leaf, the others keep theirs |
| `DiffStore.Store.List` | client/diffstore/diffstore.go:105-119 | exactly the touched items in key order |
| `DiffStore.Store.Deleted` | client/diffstore/diffstore.go:121-139 | exactly the items of the last cycle that were not touched, in key order |
| `DiffStore.Store.Changed` | client/diffstore/diffstore.go:142-160 | exactly the created and updated items, in key order |
| `DiffStore.Store.HasChanges` | client/diffstore/diffstore.go:162-174 | true if and only if some item changed |
| `DiffStore.Store.Reset` | client/diffstore/diffstore.go:176-202 | items absent for two cycles go, the others remember their hash and are untouched |
| `DiffStore.CounterIsExact` | client/diffstore/diffstore.go:52-71 | the counter is the number of touched items |
| `DiffStore.LeavesAfterTwoCycles` | client/diffstore/diffstore.go:176-202 | with non-zero hashes, after two cycles from any state the tree holds exactly the keys of either |
| `DiffStore.CycleSameHashes` | client/diffstore/item.go:48-62 | a reader in step has the keys and hashes of the list after any cycle |
| `DiffStore.RunExact` | client/diffstore/diffstore.go:91-202 | a reader that removes Deleted and stores Changed has exactly the list after every cycle of a run |
| `DiffStore.ZeroHashStays` | client/diffstore/item.go:60-62 | a value whose hash is zero is never reported as deleted |
| `DiffStore.CollisionHides` | client/diffstore/item.go:56-58 | a value that replaces another with the same hash is not reported |
| `DiffStore.FaithfulExactly` | client/diffstore/diffstore.go:52-202 | the reader is exact for every run, if and only if hashes are never zero and never collide |
| `AnyLeaf.CounterMoves` | client/diffstore/any-leaf.go:42-60 | the counter stands still, if and only if the leaf is not new and no value differs from the one before |
| `AnyLeaf.CycleReportsAt` | client/diffstore/any-leaf.go:42-60 | a cycle reports a change, if and only if the key was not set in the last cycle or a value moved; with one Set this is new, returning, or not equal |
| `AnyLeaf.RunReports` | client/diffstore/any-leaf.go:42-60 | the same for every cycle of every run |
| `AnyLeaf.ValuesFaithfulExactly` | client/diffstore/any-leaf.go:42-60 | a reader has exactly the values last set after every cycle of every run, if and only if values that pass for equal are the same |
| `LightDiffStore.DiffStore.Reset` | client/lightdiffstore/diff-store.go:37-55 | deleted entries go, the others get the mark |
| `LightDiffStore.DiffStore.Set` | client/lightdiffstore/diff-store.go:58-84 | the entry is stored; an equal hash only revives a deleted entry |
| `LightDiffStore.DiffStore.Delete` | client/lightdiffstore/diff-store.go:87-90 | the entry, which must exist, is marked deleted |
| `LightDiffStore.DiffStore.DeleteByPrefix` | client/lightdiffstore/diff-store.go:93-105 | exactly the entries with the prefix are marked deleted |
| `LightDiffStore.DiffStore.Updated` | client/lightdiffstore/diff-store.go:108-119 | exactly the changed entries in key order |
| `LightDiffStore.DiffStore.Deleted` | client/lightdiffstore/diff-store.go:122-133 | exactly the deleted entries against key order |
| `LightDiffStore.DiffStore.GetByPrefix` | client/lightdiffstore/diff-store.go:136-154 | exactly the live entries with the prefix, in key order, with their values |
| `LightDiffStore.LivePrefixScan` | client/lightdiffstore/diff-store.go:136-154 | the scan that stops at the first key without the prefix misses no live entry |
| `StringTrees.PrefixScanIsFilter` | client/lightdiffstore/diff-store.go:93-105 | the keys with a prefix are contiguous, so the early stop loses none |
| `LightDiffStore.KeyExact` | client/lightdiffstore/diff-store.go:58-90 | one key through one cycle of Sets and Deletes: the reader is exact, if and only if the key is not revived with a hash the reader never got |
| `LightDiffStore.CycleExact` | client/lightdiffstore/diff-store.go:37-133 | one cycle keeps a reader exact, if and only if it loses no key |
| `LightDiffStore.RunExact` | client/lightdiffstore/diff-store.go:37-133 | a reader is exact after every cycle of a run, if and only if no cycle loses a key |
| `LightDiffStore.MarkAndSweepExact` | client/lightdiffstore/diff-store.go:37-133 | every run of cycles of Sets only keeps the reader exact, however many Sets a key gets |
| `LightDiffStore.MarkAndSweepMinimal` | client/lightdiffstore/diff-store.go:58-133 | with at most one Set per key, the live entries are those set and an entry is reported if and only if its hash is new |
| `LightDiffStore.RevivedEntryIsLost` | client/lightdiffstore/diff-store.go:58-90 | an entry set, deleted and set again in one cycle is live and not reported |
| `Coalescing.Proxier.ServiceChange` | backends/userspacelin/userspace_proxier.go:621-653 | the oldest previous and the latest current service are kept, nothing if they are equal |
| `Coalescing.Proxier.MergeService` | backends/userspacelin/userspace_proxier.go:503-578 | every port of the service is proxied with its configuration, ports with the same configuration are left alone |
| `Coalescing.Proxier.UnmergeService` | backends/userspacelin/userspace_proxier.go:580-619 | exactly the service's ports that are not among the existing ones stop |
| `Coalescing.Proxier.SyncProxyRules` | backends/userspacelin/userspace_proxier.go:375-414 | whatever the order of the changes, an initialized sync ends with exactly the ports of the latest services; otherwise it does nothing |
| `Coalescing.ApplyReplaces` | backends/userspacelin/userspace_proxier.go:503-619 | merging the current and unmerging the previous service replaces what one wants by what the other wants and touches no other service |
| `Coalescing.RunKeeps` | backends/userspacelin/userspace_proxier.go:375-414 | every interleaving of events with any number of overlapping syncs keeps the recorded changes, the batches taken and the proxied ports consistent |
| `Coalescing.EverySyncServesExactly` | backends/userspacelin/userspace_proxier.go:375-414 | in every run of overlapping syncs, when none holds the lock the proxied ports are exactly those of the services when the k-th batch was taken, if and only if under every port the last batch merged wrote what the last of the first k batches taken wrote |
| `Coalescing.EverySyncServes` | backends/userspacelin/userspace_proxier.go:375-414 | when syncs get the lock in the order of taking, each ends with exactly the ports of the services when it took its changes |
| `Coalescing.DisjointSyncsServe` | backends/userspacelin/userspace_proxier.go:391-409 | syncs that overtake each other without a service in common end with the ports of the services taken last |
| `Coalescing.OvertakenSyncExactly` | backends/userspacelin/userspace_proxier.go:391-409 | when one sync overtakes the one before it, the whole map ends as the services taken last, if and only if every service changed in both agrees with its middle version on every port that one has or gave up |
| `Coalescing.CoalescingIsFaithful` | backends/userspacelin/userspace_proxier.go:621-653 | with nothing left to do every port has the configuration it would have if every event had been merged at once, if and only if the last writes in merge order and in the order of taking agree |
| `Coalescing.LateSyncExactly` | backends/userspacelin/userspace_proxier.go:391-409 | when a second sync merges before the first, a service changed in both ends as announced last, if and only if the last service agrees with the middle one on every port the middle one has or gave up |
| `Coalescing.LateSyncGoesBack` | backends/userspacelin/userspace_proxier.go:391-409 | two syncs that merge in the wrong order leave an older configuration |
| `Coalescing.LBIPsFreshExactly` | backends/userspacelin/userspace_proxier.go:742-766 | load balancer IPs are taken over, if and only if no port keeps its configuration while they change |
| `Coalescing.LBIPsGoStale` | backends/userspacelin/userspace_proxier.go:742-766 | a change of load balancer IPs alone is not taken over |
| `PortAllocator.RangeAllocator.NextFreePort` | backends/userspacelin/port_allocator.go:112-142 | the first free port going round from the random start is reserved, -1 if and only if every bit is set |
| `PortAllocator.RangeAllocator.Release` | backends/userspacelin/port_allocator.go:153-161 | the bit of a port in the range is cleared, other ports are ignored |
| `PortAllocator.EveryRun` | backends/userspacelin/port_allocator.go:92-161 | in every interleaving the set bits are the disjoint union of ports being sent, buffered and held, if and only if clients release only what they hold or nobody has |
| `PortAllocator.ReleaseKeepsExactly` | backends/userspacelin/port_allocator.go:153-161 | one release keeps the union disjoint, if and only if the client holds the port or nobody has it |
| `PortAllocator.HoldersAreAlone` | backends/userspacelin/port_allocator.go:92-161 | a held port is in the range, has one holder and is not waiting to be handed out |
| `PortAllocator.ImproperReleaseSharesPort` | backends/userspacelin/port_allocator.go:153-161 | after a release of a port that another client holds, two clients hold it |
| `RoundRobin.RemoveInPlace` | backends/userspacelin/roundrobin.go:322-328 | the loop over the array with swap-removal does what the specification of it does, or runs out of range |
| `RoundRobin.SwapRemoveExact` | backends/userspacelin/roundrobin.go:322-328 | the removal fails, if and only if an occurrence lies beyond what is left; otherwise exactly the occurrences go |
| `RoundRobin.DeleteUnique` | backends/userspacelin/roundrobin.go:310-335 | without duplicates a deletion removes just the matching entry and leaves no duplicates |
| `RoundRobin.DuplicatesFail` | backends/userspacelin/roundrobin.go:322-328 | an endpoint cannot be deleted from a list of two copies of it |
| `RoundRobin.RunSafeExactly` | backends/userspacelin/roundrobin.go:140-335 | every run keeps the index in range, and no call runs out of range if and only if no deletion meets duplicates that overrun the list |
| `RoundRobin.RunUniqueExactly` | backends/userspacelin/roundrobin.go:227-335 | over any run no list ever holds an endpoint twice, if and only if nothing is added that the list has or that is added twice; every deletion then takes away just the endpoint it names |
| `RoundRobin.RunAnswersExactly` | backends/userspacelin/roundrobin.go:140-194 | over any run every answer is an endpoint of the list at that moment, if and only if no client calls with a live session for an endpoint that is gone |
| `RoundRobin.RunListedExactly` | backends/userspacelin/roundrobin.go:140-335 | over any run every session stays for an endpoint of the list, if and only if no deletion names an endpoint that a session is for while others are left; every answer is then from the list |
| `RoundRobin.DeletedEndpointAnswers` | backends/userspacelin/roundrobin.go:310-335 | a client with a session is still sent to an endpoint after its deletion |
| `RoundRobin.CleanupUnobservable` | backends/userspacelin/roundrobin.go:353-367 | with a clock that does not go back, all answers are the same with and without clean-ups |
| `RoundRobin.StickyClient` | backends/userspacelin/roundrobin.go:140-194 | a client that was answered with an endpoint gets it in all its later calls, whatever else happens, if each comes within the TTL of the one before without a reset, and the service is not deleted or emptied |
| `RoundRobin.FairWindow` | backends/userspacelin/roundrobin.go:176-178 | in any window of m calls between changes the answers are the endpoints at the positions taken, and each of n positions is taken m/n times, rounded down or up |
| `RoundRobin.AddKeepsAll` | backends/userspacelin/roundrobin.go:227-256 | adding endpoints loses none of the old or the new ones and keeps sessions and TTL |
| `RoundRobin.LoadBalancerRR.NewService` | backends/userspacelin/roundrobin.go:98-110 | a service is created with the default TTL for 0; an existing one only gets affinity switched on |
| `RoundRobin.LoadBalancerRR.NextEndpoint` | backends/userspacelin/roundrobin.go:140-194 | a fresh session wins, otherwise the endpoint at the index is taken and remembered; every error case |
| `RoundRobin.LoadBalancerRR.OnEndpointsAdd` | backends/userspacelin/roundrobin.go:227-256 | the list is any permutation of the new and the old endpoints, the index 0 |
| `RoundRobin.LoadBalancerRR.OnEndpointsDelete` | backends/userspacelin/roundrobin.go:310-335 | the matching endpoints go, the index is reset, and an empty list clears the sessions |
| `RoundRobin.LoadBalancerRR.CleanupStaleStickySessions` | backends/userspacelin/roundrobin.go:353-367 | exactly the expired sessions go |
| `Probability.ShareExactly` | backends/iptables/iptables.go:699-726 | an endpoint gets exactly 1/n, if and only if no endpoint before it is skipped, and more otherwise |
| `Probability.AllEqualShares` | backends/iptables/iptables.go:832-849 | when none is skipped every endpoint gets exactly 1/n |
| `Probability.SkippedShareMoves` | backends/iptables/iptables.go:699-726 | an endpoint after a skipped one gets more than 1/n |
| `Probability.AllTakenExactly` | backends/iptables/iptables.go:699-726 | every packet is taken, if and only if the last endpoint is not skipped |
| `Probability.PrintedShares` | backends/iptables/iptables.go:699-726 | with probabilities printed within eps, endpoint i is off by at most (i + 1) eps |
| `Probability.PrintedShare` | backends/iptables/iptables.go:1070-1072 | with ten decimals endpoint i differs from 1/n by at most (i + 1) times 5e-11 |
| `Probability.Balancing.Probability` | backends/iptables/iptables.go:1053-1068 | the cache agrees with computing the probability, for every n |
| `Probability.Balancing.WriteEndpointLBRules` | backends/iptables/iptables.go:699-726 | the loop writes the ladder, skipping endpoints without an IP |
| `SaveLines.ReadLine` | backends/iptables/util/iptables_save_restore.go:75-122 | the line read and the next index, for every data and index |
| `SaveLines.LineReadExactly` | backends/iptables/util/iptables_save_restore.go:75-122 | the line read is the space-trimmed next line, if and only if it ends in a newline, is blank, or ends in two characters that are no spaces |
| `SaveLines.LastLetterIsLost` | backends/iptables/util/iptables_save_restore.go:75-122 | without a newline at the end a last word of one letter is dropped |
| `SaveLines.NextIndex` | backends/iptables/util/iptables_save_restore.go:75-122 | the reader always advances and never passes the end |
| `SaveLines.LineBuffer.Write` | backends/iptables/util/utils.go:31-51 | the arguments joined by spaces are appended as one line |
| `SaveLines.LineBuffer.WriteBytes` | backends/iptables/util/utils.go:54-57 | the bytes are appended as one line |
| `SaveLines.PrintThenRead` | backends/iptables/util/utils.go:31-57 | reading what was printed gives the lines back, trimmed |
| `SaveTables.GetChainLines` | backends/iptables/util/iptables_save_restore.go:38-73 | the two loops over the data parse the lines read from it; a chain line without a space is refused |
| `SaveTables.PrintThenParse` | backends/iptables/util/iptables_save_restore.go:38-73 | on a printed dump of tables the result is the chains of the first table whose name begins with the requested one, with their exact lines |
| `SaveTables.FindsOwnTable` | backends/iptables/util/iptables_save_restore.go:38-50 | a table is found under its own name, if and only if no earlier table's name begins with it, and then its own chains are returned |
| `SaveTables.LongerNameShadows` | backends/iptables/util/iptables_save_restore.go:38-73 | on a dump with "nat2" before "nat", asking for "nat" returns the chains of "nat2" |
| `SaveTables.ParseKeepsLines` | backends/iptables/util/iptables_save_restore.go:38-73 | for any data, every line returned is the tidy line of the chain it is filed under |
| `SaveTables.CopyExistingChains` | backends/iptables/iptables.go:361-371 | each listed chain is written with the line it had, or a new one |
| `SaveTables.ReprintTables` | backends/iptables/iptables.go:361-371 | any number of tables printed into one buffer: asking for one of them gives each of its chains the line it had or the line made for it |
| `SaveTables.ReprintThenParse` | backends/iptables/iptables.go:361-371 | lines parsed from any data, copied into the filter and the nat table of one buffer, printed and parsed again are in both tables the lines copied |
| `SaveTables.ReprintIsIdentity` | backends/iptables/iptables.go:955-974 | copying the very chains that were parsed from both tables, printing the buffer and parsing it is the identity on both |
| `EndpointsMerge.EndpointsMap.UpdatePending` | backends/iptables/endpointsCache.go:55-64 | the update is pending under its service and hash, replacing an earlier one |
| `EndpointsMerge.EndpointsMap.MergeAll` | backends/iptables/endpoints.go:193-217 | in whatever order the maps are iterated, a safe batch never meets a missing service and gives the updated map |
| `EndpointsMerge.EndpointsMap.Update` | backends/iptables/endpoints.go:157-172 | the batch is merged and then forgotten |
| `EndpointsMerge.GroupSafeExactly` | backends/iptables/endpoints.go:193-217 | the entries of one service merge in every order to the same group, if and only if they are safe |
| `EndpointsMerge.MergeSafe` | backends/iptables/endpoints.go:193-217 | in every order a safe batch gives the same map, without empty groups |
| `EndpointsMerge.MergeSafeExactly` | backends/iptables/endpoints.go:193-217 | no order dereferences a missing service, if and only if no service's deletions take away all its endpoints and more |
| `EndpointsMerge.MergeDoomedExactly` | backends/iptables/endpoints.go:193-217 | every order dereferences a missing service, if and only if the batch only deletes from a service that is not in the map |
| `EndpointsMerge.SetThenDeleted` | backends/iptables/sink.go:89-100 | an endpoint of a missing service, set and deleted between two syncs: merged one by one nothing is left, as a batch every order fails |
| `EndpointsMerge.KnownDeletionsAreSafe` | backends/iptables/endpoints.go:193-217 | a batch whose deletions name endpoints in the map is safe |
| `EndpointsMerge.OneByOneExactly` | backends/iptables/endpoints.go:193-217 | merging updates one by one never fails, if and only if each deletion comes when its service has an endpoint |
| `EndpointsMerge.BatchIsOneByOne` | backends/iptables/endpointsCache.go:55-64 | a safe batch gives in every order what merging the updates one by one gives |
| `EndpointsMerge.BatchIsOneByOneExactly` | backends/iptables/endpointsCache.go:55-64 | collecting makes no difference in any order, if and only if each deletion meets its service and the batch is safe, or some deletion misses its service and the batch fails in every order |
| `IPSets.SearchStrings` | api/localv1/ipset.go:79-92 | the first index whose element is not below the string |
| `IPSets.Set.InsertString` | api/localv1/ipset.go:79-92 | growing, shifting and writing at the searched index is the sorted insertion of the string |
| `IPSets.InsertKeepsCanonical` | api/localv1/ipset.go:79-92 | sorted insertion keeps the slice strictly sorted |
| `IPSets.InsertMembers` | api/localv1/ipset.go:79-92 | sorted insertion adds just the string and loses none |
| `IPSets.Set.Add` | api/localv1/ipset.go:45-58 | the string goes to the slice of its family, or nowhere if it is no IP |
| `IPSets.Set.AddSet` | api/localv1/ipset.go:66-77 | both slices of the other set are inserted |
| `IPSets.RunExact` | api/localv1/ipset.go:45-92 | after any sequence of additions the slices are strictly sorted and hold exactly the accepted strings |
| `IPSets.RunIsCanonical` | api/localv1/ipset.go:45-92 | the slices depend only on the set of accepted strings |
| `IPSets.CompareSlices` | api/localv1/ipset.go:115-130 | the loops find what one slice has and the other has not, in order |
| `IPSets.DiffRebuilds` | api/localv1/ipset.go:105-139 | removing and adding what Diff reports turns one set into the other |

## Left out

- Revisions, hashes and counters are unbounded: 64-bit overflow is not modelled.
- `SetRaw` and `DelRaw` of the store are operations like the others; the decoding of their values is not modelled.
- SetEndpoint and SetEndpointsOfSource write the new hash into the caller's objects, which the tree may share; the model works on values.
- The RW lock is modelled without the queueing that keeps writers from starving; callbacks of View and Update run to their end.
- nft: the postrouting and masquerade chains, trace rules, the text of the rules and the order of chains in it, load balancer IPs (which are not dispatched), unknown protocols, and the incremental render gate. The time-out of a recent set is a choice of entries that expire before a packet.
- Chain names are taken as injective: the hashing of names is not modelled.
- ServiceEvents: services are told apart by the joined string of namespace and name; the session affinity's timeout is not an item, because the code reports only its presence.
- DiffStore: deferred callbacks, buffers and sub-store leaves; leaves are values with a reset, a write and a hash.
- LightDiffStore: replicas are compared by hash, which stands for the value.
- Coalescing: sockets, portals and proxy ports, which are taken to succeed; affinity settings of a proxied port; IP strings are compared as written, not parsed.
- PortAllocator: time-outs of an allocation change nothing and are not steps.
- RoundRobin: one service port per call; floating point in the elapsed seconds; the missing lock in NewService; reading the clock twice in one call.
- Probability: floating point; 1/n is exact before it is printed.
- SaveTables: rules other than lines that begin with a dash, and everything the parser skips besides comments and rules.
- EndpointsMerge: trigger times, stale connections and local IP counts of an update.
- Command-line wiring, gRPC, metrics, logging and every call into the kernel.
- The ipvs, ebpf and windows backends, `client/kv.go` and the bounded frequency runner.
