# Verified model of the dynamic load balancer

A Dafny 4.11 model of the stateful parts of the load balancer, with proofs. `dafny verify dfyconfig.toml` checks all of it.

- **Hash table** (`nginx-custom/module2/ht.c`). `Fnv` is the 64-bit FNV-1a hash with its wrap-around (section 2, "FNV Basics", of the Internet-Draft draft-eastlake-fnv describes it). `ProbeTable`, `ProbeRemoval` and `Iteration` treat the slots as values: what a probe finds, and what an insertion, a rehash, a removal and an iteration do. `TableRuns` has whole runs of calls. `HashTable` has the code's own form, an array updated in place, proved against those values. `malloc`, `calloc` and `strdup` may fail at any call.
- **Cluster lifecycle** (`go-proxy/clusters.go`, `go-proxy/main.go`, `go-proxy/http_protocol.go`). `ClusterLifecycle` is the step system of any number of `MakeCluster`, `RemoveCluster` and listening goroutines with both lock levels; `ProxyRuns` has the theorems on all runs, and `ClusterCalls` what one whole call comes to.
- **Redis registry of the watcher** (`watcher/lib/mountebankPool.js`, `watcher/lib/deployer.js`). `MountebankPool` and `Deployer` interleave the handlers at every `await`; any command may fail. `RegistryOrder` adds that one connection to Redis answers commands in the order in which they were issued; `RegistryRuns` has concrete runs. `HandlerScripts` and `DeploymentScripts` say what every step does from the actions of a run alone, and that the step systems do just that.
- **Caches.** `BackendCache` (`go-hipache/hipache.go`) and `ResponseCache` (`go-proxy/http_protocol.go`) take every lookup, fetch and store as a separate step, with a clock and a history to compare with; `BackendRuns` and `ResponseRuns` say what becomes of every request from the actions of a run alone. `DirectRouting` is the choice of a backend.
- **Port ranges** (`go-hipache/utils/port_range.go`). `PortRanges` over `Decimal` and `GoStrings`.
- **Cache entries of an nginx worker** (`nginx-custom/module2/ngx_http_custom_module.c`). `NginxCache`.

## What turned out

- `ht_remove` is not a delete in general: it loses other keys when a probe path crosses the cleared slot, and it misses a key that wrapped past the end. `ProbeRemoval.RemoveCorrectIff` gives the exact condition for one removal and `TableRuns.RunIsMapIff` for whole runs, `RemovalRuns.RemoveIsNotDelete` concrete runs that fail it. The next expansion repairs every broken chain (`TableRuns.ExpansionRepairs`), and by that can bring back an old value of a key: with the keys "a" and "q" this happens in `RemovalRuns.OldValueOfQ`. `ht.h` promises the number of items from `ht_length`; the code also counts the removed ones (`TableRuns.RunIsMap`, `RemovalRuns.LengthTooHigh`).
- An update that clears the old server and then fails leaves its cluster registered, and the next teardown of it calls `Shutdown` on a nil server. `ProxyRuns.NilShutdownIff` says exactly when, over the events of a run; `ProxyRuns.FailedUpdateCrashes` is such a run. A second crash needs no failure: it happens exactly when a shutdown without error finishes before the listening goroutine has read `p.server` (`ProxyRuns.NilListenIff`, `ProxyRuns.EarlyShutdownCrashes`).
- Entries cached before an update can be served after it, exactly when a request that the old server accepted has at the restart not looked in its cache yet (`ResponseCache.OldServedIff`, `ResponseCache.TimeoutServesOld`). Only a `Shutdown` that timed out leaves such a request: after error-free ones nothing old is served (`ResponseCache.CleanUpdate`).
- The two registry lists can disagree for good after a failed command, even with handlers one at a time (`RegistryRuns.TornAddDisagrees`). `MountebankPool.DisagreeIff` says exactly after which, when the handlers of a container do not overlap, and `MountebankPool.DifferIff` for every run. `watcher/index.js` (lines 6 to 70) starts handlers without waiting for earlier ones, so those of one container can overlap. Then only the order of answers on the one connection keeps the lists together: with it both receive the same commands in the same order exactly if no command on `frontend:2525` is rejected (`RegistryOrder.SameCommandsIff`), without it an overlapping add and drop would drive them apart (`RegistryRuns.OverlapDisagrees`). The order does not prevent duplicates: two overlapping adds double an endpoint (`RegistryRuns.UnserialisedDuplicates`). Over all runs a list stays free of duplicates exactly when it starts so and no container is pushed onto it again before another LREM of it (`MountebankPool.DistinctIff`).
- A deployment that succeeds can publish a frontend that lacks chosen endpoints, exactly those that another writer of the list has taken out since (`Deployer.PublishedIff`).
- `deployService` with a negative capacity deploys to more instances than that (`Deployer.WithinCapacity`, `Deployer.NegativeCapacityChooses`).
- `PortRange.Set` also accepts `5++3` and `0--0` (`PortRanges.SignsAccepted`).

## Assumptions

- `ClusterMutex` checks and creates in one atomic step; Go map accesses do not race.
- `ListenAndServe` up to the moment it accepts - the check for a shutdown, the bind, the registration of the listener - is one atomic step; `ProxyRuns.ServedIff` rests on it.
- `Shutdown` closes the listener even when it reports a timeout. When it reports no error every accepted request has been answered, and nothing arrives once the listener is closed.
- The proxy does not change the headers of a response after `ModifyResponse` has cached them.
- A Redis command that is rejected has had no effect. For `RegistryOrder` alone: all handlers share one connection, which answers commands in the order in which they were issued, and a handler issues its next command as soon as its last one is answered, before the next answer is handled.
- The JSON configuration does not overwrite `Port` or `Backends`.
- The hash of a request (`hashcode.Strings`) is never the empty string; it need not be injective.
- `url.Parse` is any function from strings to hosts that may fail.
- A 64-bit `size_t` and `int`.

## Model

| member | source | states |
|---|---|---|
| Fnv.HashKey | nginx-custom/module2/ht.c:59-66 | the loop computes the FNV-1a fold of the key, with 64-bit wrap-around |
| Fnv.MaskIsMod | nginx-custom/module2/ht.c:71 | masking with a power of two less one is the remainder, for every hash |
| Fnv.PrimeInjective | nginx-custom/module2/ht.c:63 | multiplying by the FNV prime modulo 2^64 loses nothing |
| Fnv.XorInjective | nginx-custom/module2/ht.c:62 | exclusive or is injective in each operand |
| Fnv.HashFromInjective | nginx-custom/module2/ht.c:61-64 | the rest of the loop maps different hash states to different hashes, whatever bytes remain |
| Fnv.CommonSuffix | nginx-custom/module2/ht.c:59-66 | appending the same bytes neither creates nor resolves a collision |
| Fnv.OneByteApart | nginx-custom/module2/ht.c:59-66 | keys of equal length that differ in one byte never have the same 64-bit hash |
| Fnv.TestVectors | nginx-custom/module2/ht.c:53-66 | the 64-bit FNV-1a hashes of the empty string and of "a" |
| ProbeTable.StopSlot | nginx-custom/module2/ht.c:74-85 | with an empty slot anywhere the cyclic probe comes to rest, at an empty slot or at the key |
| ProbeTable.WellFormedIffChained | nginx-custom/module2/ht.c:97-109 | every stored key is where its own probe rests iff keys are distinct and no chain has a gap |
| ProbeTable.LookupIffStored | nginx-custom/module2/ht.c:68-87 | in a well-formed table a get answers a value iff the pair is stored |
| ProbeTable.SpareSlot | nginx-custom/module2/ht.c:159-165 | there is an empty slot iff fewer slots are occupied than exist |
| ProbeTable.SetEntryLookup | nginx-custom/module2/ht.c:90-122 | an insertion changes the answer for its own key alone and keeps the table well formed |
| ProbeTable.RehashLookup | nginx-custom/module2/ht.c:137-144 | rehashing any slots gives well-formed ones in which a key has the value of the last slot that held it |
| ProbeTable.RehashSameAnswers | nginx-custom/module2/ht.c:126-151 | an expansion of a well-formed table changes no answer |
| ProbeTable.RehashSize | nginx-custom/module2/ht.c:137-144 | a rehash keeps one entry per distinct key |
| ProbeTable.RehashOverwritesNothing | nginx-custom/module2/ht.c:137-144 | a rehash of a well-formed table overwrites nothing |
| ProbeRemoval.VictimIff | nginx-custom/module2/ht.c:209-220 | ht_remove finds a key iff it is stored at or after its home; a wrapped one is missed |
| ProbeRemoval.ClearForgetsIff | nginx-custom/module2/ht.c:210-214 | clearing a slot deletes its key and nothing else iff no other stored key's probe path crosses the slot, and just then the table stays well formed |
| ProbeRemoval.ClearCrossed | nginx-custom/module2/ht.c:210-214 | a stored key whose path crossed the cleared slot is no longer found |
| ProbeRemoval.EmptySuccessor | nginx-custom/module2/ht.c:210-214 | an empty cyclic successor is sufficient for no path to cross the slot |
| ProbeRemoval.RemoveCorrectIff | nginx-custom/module2/ht.c:199-221 | ht_remove is a correct delete iff the key is absent, or stored at or after its home and uncrossed; a false return changes nothing |
| ProbeRemoval.RemoveSize | nginx-custom/module2/ht.c:199-221 | in any table a removal that succeeds empties one slot and any other none |
| TableRuns.SoundTable | nginx-custom/module2/ht.c:153-169 | the invariant leaves an empty slot, bounds the capacity to 64 bits and the entries ever moved by twice the length |
| TableRuns.MaskIsHome | nginx-custom/module2/ht.c:93-94 | at every capacity a table can have, the mask gives the home slot |
| TableRuns.SetUpdates | nginx-custom/module2/ht.c:153-169 | a set that returns a key is a map update, counted if new; one that returns NULL changes no answer; and it returns NULL exactly for a NULL value, a failed needed expansion, or an uncopied new key |
| TableRuns.ExpansionRepairs | nginx-custom/module2/ht.c:126-151 | an expansion makes any table well formed again, each key with its last stored value |
| TableRuns.AnswerSound | nginx-custom/module2/ht.c:68-221 | every call keeps capacity a power of two and occupied <= length <= capacity/2, also on broken chains |
| TableRuns.RunBounds | nginx-custom/module2/ht.c:68-221 | in every reachable state an empty slot exists, capacity <= max(16, 4*length), and all expansions moved at most 2*length entries |
| TableRuns.MovedIsCarried | nginx-custom/module2/ht.c:126-151 | the entries counted as moved are exactly those that the expansions of a run have carried over |
| TableRuns.RunIsMap | nginx-custom/module2/ht.c:68-221 | in every run whose removals are clean every call replies as the map of last successful sets, and ht_length exceeds the map by exactly the number of removals |
| TableRuns.RunIsMapIff | nginx-custom/module2/ht.c:68-221 | a run replies as the map of last successful sets, and any get in between would, iff its removals are clean |
| TableRuns.RunWithoutRemovals | nginx-custom/module2/ht.c:68-173 | without removals every run is such a run and ht_length is the number of distinct keys set |
| RemovalRuns.RemoveLosesOther | nginx-custom/module2/ht.c:199-221 | of two keys with the same home, removing the first makes the second disappear |
| RemovalRuns.RemoveMissesWrapped | nginx-custom/module2/ht.c:209-218 | a key that wrapped past the last slot is found by a get and not by a remove |
| RemovalRuns.RemoveIsNotDelete | nginx-custom/module2/ht.c:199-221 | both failures occur in concrete runs on a fresh table |
| RemovalRuns.OldValueReturns | nginx-custom/module2/ht.c:126-221 | of two keys with one home, after removals of the first, the second answers its last value until an expansion, and then an older one |
| RemovalRuns.OldValueOfQ | nginx-custom/module2/ht.c:126-221 | this happens with concrete keys on a fresh table |
| RemovalRuns.LengthTooHigh | nginx-custom/module2/ht.c:171-221 | after a set and a removal of any key the length is one although every get answers NULL |
| Iteration.IteratorYieldsMap | nginx-custom/module2/ht.c:175-197 | the pairs to yield are exactly those a lookup answers, each key once, as many as entries |
| Iteration.PendingIsLength | nginx-custom/module2/ht.c:171-197 | after a run with clean removals there are as many pairs to yield as ht_length less the removals |
| Iteration.NthCall | nginx-custom/module2/ht.c:182-197 | of calls in a row the first as many as there are pairs answer true, with the pairs in order, and all later ones false |
| HashTable.InsertEntry | nginx-custom/module2/ht.c:90-122 | the probing loop writes the slot where the probe rests, and counts a copied new key |
| HashTable.MoveEntries | nginx-custom/module2/ht.c:137-144 | the loop of ht_expand makes the rehash of the old slots |
| HashTable.Create | nginx-custom/module2/ht.c:25-41 | a fresh empty table of 16 slots, or NULL iff an allocation fails |
| HashTable.Table.Get | nginx-custom/module2/ht.c:68-87 | the loop ends on every sound table with the answer of the probe |
| HashTable.Table.Expand | nginx-custom/module2/ht.c:126-151 | doubles and rehashes; on overflow or a failed allocation the table is unchanged |
| HashTable.Table.Set | nginx-custom/module2/ht.c:153-169 | has the effect and the result of the specified set, and keeps the invariant |
| HashTable.Table.Remove | nginx-custom/module2/ht.c:199-221 | clears the slot the non-wrapping scan finds, and reports whether it found one |
| HashTable.Iterator.Next | nginx-custom/module2/ht.c:182-197 | yields the first pending pair and leaves the rest pending, or reports false and leaves none |
| HashTable.Items | nginx-custom/module2/ht.h:41-47 | iterating until the answer is false gives every pair of the table, in the order of the slots |
| ClusterLifecycle.ActionKeeps | go-proxy/clusters.go:58-192 | every step of every goroutine keeps the invariant of its port |
| ProxyRuns.RunSane | go-proxy/main.go:60-165 | in every state any interleaving of the goroutines of all ports reaches, every site has its lock held by at most one goroutine, at most one live server, and a registry that matches |
| ProxyRuns.MutualExclusion | go-proxy/clusters.go:58-101 | at most one goroutine is past the lock of a port |
| ProxyRuns.OneServerPerPort | go-proxy/clusters.go:65-112 | at most one server of a port is live; with the lock free it is that of the registered cluster, whose backends are not empty |
| ClusterCalls.BackendsAreRead | go-proxy/clusters.go:131-137 | in every reachable state the backends of a registered cluster are the list in the last answer of Redis to a Refresh of its port |
| ClusterCalls.MakeAlone | go-proxy/clusters.go:65-95 | a call of MakeCluster that finds the lock free and is left to itself ends, unless the port is stale; with good answers a cluster is registered, the old one if there was one, with just the backends read and a live server, otherwise the registry is unchanged and nothing is live |
| ClusterCalls.RemoveAlone | go-proxy/clusters.go:97-112 | a call of RemoveCluster likewise ends with no cluster registered and nothing live |
| ProxyRuns.ServedIff | go-proxy/clusters.go:65-112 | with the lock free a port has a live server iff it has a registered cluster of which no update has failed since it was last registered, and a starting server finds its port free |
| ProxyRuns.NoNilShutdown | go-proxy/clusters.go:72-95 | if every Refresh of a registered cluster succeeds no Teardown meets a nil server, in any run |
| ProxyRuns.NilShutdownIff | go-proxy/http_protocol.go:286-304 | a Teardown crashes iff, since the cluster was last registered or removed, an update of the port has shut the server down without error and then failed |
| ProxyRuns.NilListenIff | go-proxy/http_protocol.go:265-304 | a listening goroutine is due to crash on a nil server iff its protocol was shut down without error before it ran |
| ProxyRuns.NoNilListen | go-proxy/http_protocol.go:265-304 | a run without such an early shutdown never ends in that crash |
| ProxyRuns.ListensOnce | go-proxy/http_protocol.go:265-281 | in every run a server is told to listen at most once |
| ProxyRuns.NoDeadlock | go-proxy/clusters.go:122-192 | an unfinished goroutine can go on, or waits for the port's lock whose holder can; c.mu is never waited for |
| ProxyRuns.AtMostTenSteps | go-proxy/clusters.go:65-112 | in every run every call of MakeCluster or RemoveCluster takes at most ten steps, whatever the others do in between |
| ProxyRuns.FailedUpdateCrashes | go-proxy/clusters.go:86-89 | the nil-server crash is reachable after a failed update |
| ProxyRuns.EarlyShutdownCrashes | go-proxy/http_protocol.go:265-281 | the listening goroutine can find a nil server although nothing failed |
| MountebankPool.EndpointInjective | watcher/lib/mountebankPool.js:29 | different containers have different endpoints |
| MountebankPool.HeldIff | watcher/lib/mountebankPool.js:24-57 | in every run, overlaps and failures included, a list holds a container iff the last command on it naming the container was an RPUSH, or there was none and it held it from the start |
| MountebankPool.DifferIff | watcher/lib/mountebankPool.js:24-57 | in every run, overlaps and failures included, the lists disagree on a container iff the last commands naming it left it in just one of them |
| MountebankPool.DistinctIff | watcher/lib/mountebankPool.js:32-37 | in every run, a list is free of duplicates in all states iff it starts so and no container is pushed onto it when the last command on it naming the container was a push |
| MountebankPool.PushedByAnother | watcher/index.js:15-70 | that earlier push is always one of another handler of the container, and comes after this one's LREM |
| MountebankPool.NoDuplicates | watcher/lib/mountebankPool.js:24-57 | with handlers serialised per container nothing is ever pushed again, so a list that starts without duplicates never has one, failures included |
| MountebankPool.DisagreeIff | watcher/lib/mountebankPool.js:24-57 | with handlers serialised, from any two lists, they disagree on a container iff its last handler stands or was cut short between the pushes, or at the LREM of frontend:2525 that held it, or at its first LREM while they disagreed already, perhaps from the start |
| HandlerScripts.RunIff | watcher/lib/mountebankPool.js:24-57 | actions form a run iff every handler steps after its start, never after a step that failed, and no further than its script: health check, two LREMs, two RPUSHes, PUBLISH for an add, two LREMs for a drop |
| HandlerScripts.ListsFollowScripts | watcher/lib/mountebankPool.js:24-57 | in every run each list is the replay of the commands that the scripts put in the places of the successful steps |
| HandlerScripts.NothingAfterFailure | watcher/lib/mountebankPool.js:41-43 | after a failed step a handler takes no other |
| HandlerScripts.UncheckedChangesNothing | watcher/lib/mountebankPool.js:14-27 | on a container whose handlers are adds without a successful health check both lists stay as at the start |
| HandlerScripts.LastHandlerDecides | watcher/lib/mountebankPool.js:24-57 | when the last handler of a container whose health check succeeded has performed its script, both lists hold the container if it was an add, neither if it was a drop |
| MountebankPool.PermutationsIff | watcher/lib/mountebankPool.js:24-57 | with handlers serialised, lists that started without duplicates are permutations of each other iff they disagree on no container and did not start apart on strings that are no endpoints |
| RegistryOrder.SameCommandsIff | watcher/lib/mountebankPool.js:6-57 | over one connection, however handlers overlap, once nothing is in flight both lists have received the same commands in the same order iff no command on frontend:2525 was rejected |
| RegistryOrder.InOrderAgree | watcher/lib/mountebankPool.js:6-57 | then lists equal at the start are equal, and what the lists agreed on they agree on |
| RegistryRuns.TornAddDisagrees | watcher/lib/mountebankPool.js:36-43 | a failed push leaves the lists in disagreement, in order and with handlers serialised |
| RegistryRuns.OverlapDisagrees | watcher/lib/mountebankPool.js:24-57 | if answers could overtake each other, an overlapping add and drop would leave the lists in disagreement with nothing failed |
| RegistryRuns.UnserialisedDuplicates | watcher/lib/mountebankPool.js:31-37 | two overlapping adds of one container leave a duplicate, also over one connection |
| RegistryRuns.ThirdHandlerHeals | watcher/lib/mountebankPool.js:46-57 | a push of another handler since the own LREM makes no duplicate if a third one's LREM comes after it |
| Deployer.GetMountebankInstances | watcher/lib/mountebankPool.js:59-70 | the first non-empty read, or nothing after three retries |
| Deployer.HostOfIff | watcher/lib/deployer.js:18 | the pattern matches exactly what has the form of an endpoint, and captures its container |
| Deployer.IsDebugIff | watcher/lib/deployer.js:27-29 | a name is of debug mode iff "mb-debug" occurs in it |
| Deployer.ChooseInstances | watcher/lib/deployer.js:12-34 | NoMatch iff some pool element is not an endpoint; else the containers of the first endpoints of the asked mode, in pool order, as many as slice leaves of the capacity; NoInstances if that is none |
| Deployer.ChosenFromPool | watcher/lib/deployer.js:17-34 | the chosen instances are distinct, of the asked mode, in the pool, and all such if the capacity allows |
| Deployer.WithinCapacity | watcher/lib/deployer.js:31 | the choice is within the capacity iff that is not negative |
| Deployer.NegativeCapacityChooses | watcher/lib/deployer.js:31 | capacity -1 chooses one instance out of two |
| Deployer.PoolOfEndpoints | watcher/lib/mountebankPool.js:24-57 | the pool only ever holds endpoints of containers |
| Deployer.FrontendIsPart | watcher/lib/deployer.js:36-78 | in every interleaving without another writer since the DEL the frontend is, from then on, a duplicate-free part of the chosen endpoints, and the old list before or if the DEL fails |
| Deployer.PublishedIsComplete | watcher/lib/deployer.js:41-55 | a publish happens only if all deployments succeeded, and then, without another writer since the DEL, the frontend is a permutation of the chosen endpoints |
| DeploymentScripts.PlayIff | watcher/lib/deployer.js:36-84 | actions form a run iff the DEL comes first, every instance goes through DELETE, POST, LREM, RPUSH and not on after a failure, and it settles when all have ended |
| DeploymentScripts.ListFollowsScripts | watcher/lib/deployer.js:36-84 | in every run the frontend is the replay of the DEL, the scripts and the commands of other writers |
| DeploymentScripts.PublishedWhen | watcher/lib/deployer.js:46-55 | a deployment whose tasks have ended is published iff none of them failed and the PUBLISH was accepted |
| Deployer.PublishedIff | watcher/lib/deployer.js:36-78 | whatever other writers do to the list, a published frontend lacks a chosen endpoint iff the last command naming it was another writer's DEL or LREM |
| Deployer.DeployFromRegistry | watcher/lib/deployer.js:12-84 | end to end from every run of the watcher that kept the pool free of duplicates, and with any other writers: what is published is the choice, not empty and within a non-negative capacity, but for what others took out last |
| BackendCache.HitIsRecent | go-hipache/hipache.go:68-84 | a cached answer is a list Redis held for the same port no longer ago than five minutes plus the one fetch that stored it |
| BackendCache.BoundIsReached | go-hipache/hipache.go:77-82 | the bound is exact: a list that old is served although Redis holds a newer one |
| BackendRuns.HitIff | go-hipache/hipache.go:68-84 | a request is a hit iff it does not skip the cache and the last store for its port is at most five minutes old, and is then answered with that list |
| BackendRuns.HitAge | go-hipache/hipache.go:68-84 | a hit is a list that Redis held for the port when it answered an earlier fetch, no longer ago than five minutes and the time from that answer to its store |
| BackendRuns.AnswerIs | go-hipache/hipache.go:77-83 | on a miss the list that Redis holds when it answers is the answer, or on its way into the cache; without an answer the request fails |
| BackendRuns.MissIsFetched | go-hipache/hipache.go:77-83 | every answer that is no hit is the list Redis held for the port when it answered the request's own fetch |
| BackendRuns.SkipNeverHits | go-hipache/hipache.go:102-115 | a request that skips the cache is never answered from it |
| BackendRuns.EndsWhen | go-hipache/hipache.go:68-115 | a hit ends after the look-up, a failure after the fetch, a fetched list is answered after it or, if it is cached, after the store |
| BackendRuns.NextIff | go-hipache/hipache.go:68-115 | a request can go on until it is answered or has failed |
| DirectRouting.FindBackend | go-hipache/hipache.go:162-174 | the first backend with the host and no unparsable one before it |
| DirectRouting.AddressesUnique | go-hipache/hipache.go:120-124 | a path names at most one host and forwarded path |
| DirectRouting.Route | go-hipache/hipache.go:117-133 | the choice is a list element; direct iff the path addresses such a backend, and then path = "/!" + host + forwarded |
| Decimal.PrintValue | go-hipache/utils/port_range.go:27 | a printed number is a numeral of that number |
| Decimal.NoLeadingZero | go-hipache/utils/port_range.go:27 | no number but zero is printed with a zero in front |
| Decimal.PrintThenAtoi | go-proxy/http_protocol.go:196-203 | a 64-bit number that was printed is read back |
| GoStrings.TrimmedEnds | go-hipache/utils/port_range.go:40 | trimming takes blanks off the two ends and nothing else |
| GoStrings.BlankCodes | go-hipache/utils/port_range.go:40 | the blanks are the characters with the Unicode property White_Space |
| PortRanges.ReadBounds | go-hipache/utils/port_range.go:54-95 | gives the two ends the grammar of the notations names, in 64-bit arithmetic; fails iff both separators occur, or no notation gives two ends that fit |
| PortRanges.PortRange.Set | go-hipache/utils/port_range.go:33-108 | sets the parsed range, or reports the error and changes nothing |
| PortRanges.ParsePortRange | go-hipache/utils/port_range.go:118-125 | a new range, or nil with the error |
| PortRanges.ParseIffDenotes | go-hipache/utils/port_range.go:30-108 | a string is accepted with a range iff it denotes that range by the grammar of the three notations |
| PortRanges.SumAccepts | go-hipache/utils/port_range.go:92-103 | an offset is accepted iff the true sum is a port: a 64-bit wrap-around never passes |
| PortRanges.AcceptedPorts | go-hipache/utils/port_range.go:97-106 | an accepted non-blank string gives a non-empty range within 0 to 65535 |
| PortRanges.EndsIff | go-hipache/utils/port_range.go:41-95 | searching for the separators and reading what is around them finds exactly the ends of the grammar |
| PortRanges.PrintThenParse | go-hipache/utils/port_range.go:21-28 | parsing the printed form gives the range back, for every range of valid ports |
| PortRanges.PrintedEnds | go-hipache/utils/port_range.go:23-28 | a non-empty range prints as the numerals of its two ends around a hyphen, an empty one as nothing |
| PortRanges.StringParses | go-hipache/utils/port_range.go:21-28 | a range object is restored from its own String() iff it is the empty range at 0 or a non-empty range of valid ports |
| PortRanges.SignsAccepted | go-hipache/utils/port_range.go:75-92 | "5++3" is accepted as 5 to 8, and "0--0" as 0 |
| PortRanges.ServedPorts | go-hipache/hipache.go:213-222 | the loops start a server on exactly the ports some range contains, each once for one range |
| PortRanges.ContainsNamed | go-hipache/utils/port_range.go:16-18 | a range set from a non-blank string contains exactly the ports between the two ends that the string names |
| ResponseCache.HitReplays | go-proxy/http_protocol.go:104-148 | a hit replays status, body, headers and delay of an exchange completed under the same non-empty hash by the same StartServer, since that start, within a limited lifetime |
| ResponseRuns.HitIff | go-proxy/http_protocol.go:104-222 | a request is a hit iff caching is on and the last readable store under its hash by its own server, made with caching on, is within the lifetime; it replays just that exchange, and otherwise goes to a backend |
| ResponseRuns.MissPassesOn | go-proxy/http_protocol.go:187-228 | a request that is no hit is replied to with what the backend answered to it, marked with its delay |
| ResponseRuns.DelayIs | go-proxy/http_protocol.go:193-200 | a number in X-Sv-Delay is the delay; without one it is that of the cluster |
| ResponseRuns.NextIff | go-proxy/http_protocol.go:88-304 | when a server starts, a request arrives, is looked up, answered and replied to |
| ResponseCache.HitAfterUpdate | go-proxy/http_protocol.go:72-148 | a hit of a request that arrived after an update replays an exchange completed after it |
| ResponseCache.OldServedIff | go-proxy/http_protocol.go:115-304 | entries from before an update can be served after it iff at the restart a request of an older server has yet to look in a cache with a live entry |
| ResponseRuns.OldServedWhen | go-proxy/http_protocol.go:115-304 | the same over actions: iff some request has yet to be looked up and would hit in the cache of its server |
| ResponseCache.CleanUpdate | go-proxy/http_protocol.go:286-304 | if no Shutdown before the update reported an error, every hit after it, of any request, replays an exchange completed after it |
| ResponseCache.TimeoutServesOld | go-proxy/http_protocol.go:291-297 | a run with a timed-out Shutdown in which an old entry is served after the update |
| NginxCache.QueryRedis | nginx-custom/module2/ngx_http_custom_module.c:387-420 | the first usable answer of at most four attempts |
| NginxCache.Worker.Find | nginx-custom/module2/ngx_http_custom_module.c:624-659 | the first active usable entry of the key, or NULL iff there is none |
| NginxCache.Worker.Add | nginx-custom/module2/ngx_http_custom_module.c:662-693 | a new active, unused entry at the head of the queue, or nothing |
| NginxCache.Worker.Cleanup | nginx-custom/module2/ngx_http_custom_module.c:702-730 | only an unused retired entry leaves the queue, dies and is queued for freeing, once |
| NginxCache.Worker.Handle | nginx-custom/module2/ngx_http_custom_module.c:327-502 | a young entry is the answer without Redis and nothing changes; an expired one is retired, whatever Redis answers; else the answer is the first usable one of four, or nothing; use counts are back at zero on every path |

## Left out

- Concurrent parts are modelled on values: `ClusterLifecycle`, `MountebankPool`, `RegistryOrder`, `Deployer`, `BackendCache` and `ResponseCache` are step systems, because their claims are about interleavings; assignment in place inside one step is not captured.
- Fnv.HashKey: bytes after the first NUL are not part of a key, so keys are sequences of non-zero bytes.
- `ht_destroy`, pointers to the copied keys and `free`: memory is not modelled.
- ResponseCache.HitReplays: says what the handler writes. It sets trailers after the body; net/http sends those that were announced, and the proxy announces none.
- ResponseRuns.MissPassesOn: says what is handed to the reverse proxy; the headers `X-Dlb-Cache: MISS` and `X-Dlb-Backend` that the handler sets beside it are not modelled.
- Deployer.ChooseInstances: the branch without Redis, which lists containers, is left out.
- NginxCache.Worker.Handle: shared pool and queue are taken to be present, and several workers sharing them are not modelled; leaked replies of failed attempts are not counted.
- PortRanges.PortRange.Set: strings are sequences of characters, not of UTF-8 bytes, and error texts are reduced to their kinds.
- `GetFrontends`, message parsing in the listeners, health checks, Docker events, static nginx configuration, metrics, logging, TLS and the reverse proxy itself: only what they read or change is present, as actions.
- `go-proxy/utils/port_range.go` is the same file again; `nginx-hipache/hipache.lua` depends on a cache library that is not part of this model.
