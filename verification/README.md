# EdgeFabric: verified model

EdgeFabric is a controller and a fleet of edge nodes and gateways. The controller provisions nodes, hands out
WireGuard overlay addresses, manages DNS zones and issues session tokens; nodes cache HTTP responses in two tiers,
limit request rates, forward TCP and UDP routes and answer DNS queries. This project models the parts of it whose
correctness spans several functions or a whole run, and proves what those parts promise.

Each module follows one component:

| file | component |
|---|---|
| `LruCache.dfy`, `CacheModel.dfy` | the in-memory response cache: a hash map and a doubly linked recency list, and the recency sequence it implements |
| `Recency.dfy`, `MemoryHits.dfy` | runs of the in-memory cache: order of last use, what is evicted, what is found again |
| `DiskCache.dfy` | the disk tier: index, files, byte budget, eviction of the oldest entry |
| `HybridCache.dfy`, `HybridHits.dfy`, `HybridReplaced.dfy`, `HybridShortening.dfy` | both tiers together: spill on eviction, promotion on a disk hit, whole runs of calls; what each call moves and what is found again; exactly when a replaced response is served; what a shortened TTL does |
| `CacheKey.dfy` | cache keys |
| `RateLimiter.dfy` | the token bucket |
| `Forwarder.dfy`, `ListenerEndpoints.dfy`, `OnePass.dfy` | the route reconciler of nodes and gateways; which endpoints it listens on; exactly when one pass suffices |
| `AddressBytes.dfy`, `OverlayAllocator.dfy` | addresses as byte strings and as numbers; the two allocators |
| `OverlayRecords.dfy`, `OverlayRuns.dfy`, `OverlayRegistry.dfy` | peer and node records and single writes; address uniqueness over runs of operations under way at once; the registry object and mesh configurations |
| `Enrollment.dfy` | one-time enrollment tokens under concurrent calls |
| `LeaderElection.dfy` | leader election over a PostgreSQL advisory lock |
| `Provisioning.dfy`, `ProvisioningRuns.dfy`, `JobProgress.dfy`, `ActiveJobs.dfy`, `NodeStatusRuns.dfy`, `EnrollingNodes.dfy`, `Upgrade.dfy` | actions and pipelines; jobs and workers over runs, one store access at a time; what accepted jobs come to; active jobs of a node; node status; enrolling nodes and their jobs; the binaries on an upgraded node |
| `DnsZones.dfy`, `DnsEffects.dfy` | the controller's DNS service: CNAME exclusivity and zone serials; what each request stores |
| `DnsLookup.dfy`, `DnsAnswers.dfy`, `DnsServer.dfy`, `DnsExclusivity.dfy` | what a DNS query is answered, case by case, the server's index and lookup, and CNAME exclusivity of what is served |
| `Encodings.dfy`, `SessionToken.dfy` | decimal, UUID and base64 encodings; session tokens |
| `Text.dfy` | splitting and joining, and other small helpers |

Objects that the program updates in place are classes whose methods are proved against a function on values. The
lemmas about whole runs are about those functions. Clocks, I/O failures, map iteration order, database replies and
the like are parameters, so each theorem holds for all of them.

Where the code does not meet what one would expect of it, the code is modelled as it is, and there is a lemma that
shows the failure and one that says when the property does hold:

* A hybrid cache get can return a replaced response when a key's TTL is shortened, in a cache of any size
  (`ShorteningServesReplaced`); while no key's TTL shrinks it never does (`HybridCoherence`). Over every run this
  happens exactly when a get finds its memory entry expired over a different live copy on disk (`ReplacedExactly`), and
  it can happen in a state exactly when such a copy outlives the memory entry above it (`CanServeReplaced`).
* A clean shutdown of a leader releases the advisory lock once, but every election tick takes it again, so the lock
  can outlive the leader (`LockOutlivesLeader`). After any shutdown on a live session, of a leader or not, the session
  still holds the lock exactly when it took it more often than it was unlocked (`ShutdownKeepsLock`).
* A failing backup step of an upgrade rolls back to whatever backup an earlier upgrade left
  (`LeftoverBackupDowngrades`); the original survives exactly when that is none or the original
  (`FailureOfBackup`, `UnreachableAtBackup`).
* One reconcile pass may leave a desired route down (`OnePassNotEnough`). It suffices exactly when it visits no route
  before one whose outdated listeners exclude it (`OnePassExactly`, `OnePassInEveryOrder`); two passes always suffice
  (`TwoPassConvergence`).
* Overlay addresses are allocated, stored with a peer and stored with the node in separate accesses, on a copy of the
  node record loaded before. Two enrollments that both allocate before either stores its peer always share an address
  (`SameListingShares`, `SecondAllocationUnsafe`), and a late write of a loaded record can restore an address another
  node has been given since (`StaleWriteBackShares`). Operations run one at a time keep every address with one owner
  and mesh configurations disjoint (`OneAtATime`, `OneAtATimeMesh`). For operations under way at once, what they have
  loaded and allocated decides exactly whether an address can come to have two owners (`UniqueExactly`): loading is
  always safe, and a run stays safe exactly when each allocation takes addresses nobody else holds or lays claim to
  (`RunExactly`). `AddressUniqueness` says the same of single writes.
* Two overlapping start requests can give a node two active jobs (`OverlapAdmitsTwo`). Until another request arrives, a
  node keeps to one exactly when no request past its check stands beside an active job, and either a job whose last
  write was lost turns all requests away or at most one request is under way (`OneActiveExactly`); when more may
  arrive, only such a stuck job keeps it to one (`OneActiveForEver`).
* An enrolling node need not have an active job: a lost last write strands it (`LostWriteStrands`). It always has an
  enroll job that is active, is between its last two writes, or failed at the last one (`EnrollingHasJob`), and it is
  sure to keep an active one exactly when one of its enroll jobs is stuck, or it is not enrolling and nothing under way
  can make it so (`BackedExactly`).
* A job is recorded as completed before the node's status is written, so a decommissioned node can come back
  (`DecommissionWindow`, `EnrollmentReopens`). It stays decommissioned exactly when no worker on it may still write
  another status, and every start request under way either decommissions too or will be turned away by a stuck job
  (`DecommissionedExactly`).
* CNAME exclusivity depends on the record listing being complete (`UnlistedNameAdmitsCname`, `WriteExclusive`) and, as
  served, on the spelling of names (`NewSpellingAdmitted`, `ServedExclusiveExactly`); names in lower case with the apex
  written "@" are enough (`LowerCaseNamesSuffice`).
* A zone stored without its final dot serves none of its records (`UndottedZoneNeverMatches`, `OwnerInZoneExactly`).
* A decoded path that holds `?`, or a host that holds `|`, shares cache keys with other requests
  (`QuestionMarkInPathCollides`, `BarInHostCollides`); without them keys are canonical (`CacheKeyCanonical`).
* A session token issued with a role that holds `|` is always refused (`IssueVerify`).

`dafny verify dfyconfig.toml` checks the project.

## Model

| member | source | states |
|---|---|---|
| `CacheModel.RecencyGetKeepsBound` | internal/cdnserver/cache.go:85-105 | a get leaves distinct keys within the capacity |
| `CacheModel.RecencyPutKeepsBound` | internal/cdnserver/cache.go:109-149 | a put leaves distinct keys within the capacity |
| `CacheModel.RecencyPutConserves` | internal/cdnserver/cache.go:123-149 | of the slots under other keys a put loses none and invents none: each is kept or handed out as evicted |
| `CacheModel.RecencyPutEvicts` | internal/cdnserver/cache.go:134-137 | at most one slot is evicted; it was stored, and its key is no longer in the cache |
| `CacheModel.SlotAt` | internal/cdnserver/cache.go:85-105 | with distinct keys, looking up the key at a position finds that slot, and removing it leaves the others in order |
| `CacheModel.CacheableExactly` | internal/cdnserver/cache.go:109-121 | a response is accepted exactly when its status is 2xx and its first Cache-Control value mentions neither no-store nor no-cache in any letter case |
| `Recency.RunOrdered` | internal/cdnserver/cache.go:85-149 | after every run of gets, puts and purges the entries are in order of last use, the most recently used first |
| `Recency.RunHolds` | internal/cdnserver/cache.go:85-159 | after every run each entry is the last accepted put of its key since the last purge |
| `Recency.EvictsLeastRecentlyUsed` | internal/cdnserver/cache.go:134-149 | in every run an evicted entry was last used before each of the entries then held, which fill the cache |
| `Recency.HitIsLastPut` | internal/cdnserver/cache.go:85-105 | in every run a hit is the last accepted put of its key and has not expired |
| `MemoryHits.HitsAgain` | internal/cdnserver/cache.go:85-149 | in every run an entry put or hit is hit by the next get of its key until it expires, as long as no purge and fewer other keys than the capacity are used in between |
| `LruCache.Cache.constructor` | internal/cdnserver/cache.go:55-63 | the new cache is empty and well linked; a capacity that is not positive becomes 10000 |
| `LruCache.Cache.AddToHead` | internal/cdnserver/cache.go:177-187 | the list becomes the entry followed by the old list, linked both ways |
| `LruCache.Cache.UnlinkEntry` | internal/cdnserver/cache.go:194-207 | exactly the given position leaves the list and the rest stays linked both ways, for head, tail, middle and only entry |
| `LruCache.Cache.MoveToHead` | internal/cdnserver/cache.go:209-215 | the entry moves to the front and the order of the others is kept |
| `LruCache.Cache.RemoveEntry` | internal/cdnserver/cache.go:189-192 | list and map lose the same entry |
| `LruCache.Cache.EvictTail` | internal/cdnserver/cache.go:217-226 | the least recent slot leaves list and map and is handed out; an empty cache is left alone |
| `LruCache.Cache.MakeRoom` | internal/cdnserver/cache.go:134-137 | the eviction loop ends below the capacity having evicted the last slot of a full cache and nothing otherwise |
| `LruCache.Cache.Get` | internal/cdnserver/cache.go:85-105 | on the linked list and the map it is the recency get: a miss, an expired entry removed, or the hit moved to the front |
| `LruCache.Cache.Put` | internal/cdnserver/cache.go:109-149 | on the linked list and the map it is the recency put, refusals and evictions included |
| `LruCache.Cache.Purge` | internal/cdnserver/cache.go:152-159 | the cache is empty and well linked |
| `LruCache.Cache.Len` | internal/cdnserver/cache.go:162-166 | the number of map entries is the number of slots in the list |
| `LruCache.Cache.ChainsAreReverses` | internal/cdnserver/cache.go:177-207 | following next from the head spells one list and no other, following prev from the tail spells exactly its reverse, and its entries are the map's values |
| `LruCache.Cache.SlotsBounded` | internal/cdnserver/cache.go:43-52 | the keys are distinct and at most the capacity in number |
| `DiskCache.TotalRemove` | internal/cdnserver/diskcache.go:212-216 | the total body size is the removed entry's size plus the rest |
| `DiskCache.PutKeepsBudget` | internal/cdnserver/diskcache.go:127-187 | after any put, with any ties and any failed write, the bodies fit the budget, except for a single body larger than it |
| `DiskCache.DiskCache.EvictOldest` | internal/cdnserver/diskcache.go:224-236 | the entry removed was stored no later than any other, whatever the order the index is scanned in; an empty index is left alone |
| `DiskCache.DiskCache.MakeRoom` | internal/cdnserver/diskcache.go:143-147 | evicts oldest entries one at a time, and stops as soon as the body fits or nothing is left |
| `DiskCache.DiskCache.Get` | internal/cdnserver/diskcache.go:77-125 | a hit is the stored slot; expired and unreadable entries are dropped; index, files and byte count stay in step |
| `DiskCache.DiskCache.Put` | internal/cdnserver/diskcache.go:127-187 | a refused response changes nothing; otherwise the old copy goes, room is made, and the slot is indexed unless a write fails; the byte count stays the sum of the indexed sizes |
| `DiskCache.DiskCache.RemoveEntry` | internal/cdnserver/diskcache.go:212-222 | the entry leaves the index and the byte count even when deleting its files fails |
| `DiskCache.DiskCache.Purge` | internal/cdnserver/diskcache.go:189-198 | nothing is stored and the byte count is zero |
| `HybridCache.StaleExpiresFirst` | internal/cdnserver/diskcache.go:310-339 | a stale disk copy under an expired memory entry has expired too |
| `HybridCache.SpillKeepsCoherence` | internal/cdnserver/diskcache.go:290-308 | an evicted entry written to disk, or lost there, leaves both tiers coherent |
| `HybridCache.StoreKeepsCoherence` | internal/cdnserver/diskcache.go:341-344 | storing a response, with what it evicts, leaves both tiers coherent with it as the last accepted one |
| `HybridCache.GetKeepsCoherence` | internal/cdnserver/diskcache.go:310-339 | a get, promotion and cascaded evictions included, keeps coherence and returns a miss or the last accepted payload |
| `HybridCache.RunCoherent` | internal/cdnserver/diskcache.go:278-349 | coherence of the tiers with the last accepted puts holds after every run |
| `HybridCache.HybridCoherence` | internal/cdnserver/diskcache.go:278-349 | over every run without shrinking TTLs a get returns a miss or exactly the last accepted payload of its key since the last purge |
| `HybridHits.DiskHitEffect` | internal/cdnserver/diskcache.go:310-339 | a get that memory cannot serve and disk can hits with the disk entry, which is then in front of memory, stored as of now, and off disk; every other memory entry is kept or on disk unless that write fails, every other disk entry is kept unless evicted for room or replaced |
| `HybridHits.MemoryHitEffect` | internal/cdnserver/diskcache.go:310-316 | a get that memory can serve hits, moves the entry to the front and changes nothing else |
| `HybridHits.MissEffect` | internal/cdnserver/diskcache.go:310-339 | any other get misses, and drops exactly the dead entries of its key |
| `HybridHits.PutEffect` | internal/cdnserver/diskcache.go:341-344 | an accepted put is in front of memory, and what it displaces is on disk unless that write fails; a refused one changes nothing |
| `HybridHits.PutIsHit` | internal/cdnserver/diskcache.go:278-349 | in every run a put is hit by a later get within its TTL, as long as no purge and fewer other keys than memory has room for are used in between |
| `HybridHits.HitIsHitAgain` | internal/cdnserver/diskcache.go:278-349 | likewise a hit in either tier, with its payload |
| `HybridReplaced.ReplacedExactly` | internal/cdnserver/diskcache.go:310-344 | over every run, for any TTLs and clocks, every get returns a miss or the last accepted payload exactly when no get finds its memory entry expired over a different copy on disk that is live and readable |
| `HybridReplaced.CanServeReplaced` | internal/cdnserver/diskcache.go:310-344 | in a state a permitted get of a key can return a replaced payload, now or later, exactly when a different disk copy under the key's memory entry outlives that entry |
| `HybridShortening.ShorteningServesReplaced` | internal/cdnserver/diskcache.go:310-344 | for every entry limit, byte budget and pair of a TTL and a shorter one there is a run whose last get returns a replaced payload |
| `HybridCache.RunWithinLimits` | internal/cdnserver/diskcache.go:278-349 | over every run memory keeps its entry limit and disk its byte budget |
| `HybridCache.HybridCache.constructor` | internal/cdnserver/diskcache.go:290-308 | both tiers start empty with the given limits, a memory limit that is not positive becoming 10000 |
| `HybridCache.HybridCache.OnEvict` | internal/cdnserver/diskcache.go:302-305 | the evicted slot goes to disk, stored as of now, with a permitted choice of further evictions |
| `HybridCache.HybridCache.Get` | internal/cdnserver/diskcache.go:310-339 | the two objects together take the step that the run theorems are about, with the same hit |
| `HybridCache.HybridCache.Put` | internal/cdnserver/diskcache.go:341-344 | the two objects together take the step that the run theorems are about |
| `HybridCache.HybridCache.Purge` | internal/cdnserver/diskcache.go:346-349 | both tiers are empty |
| `CacheKeys.SortedUnique` | internal/cdnserver/cache.go:74-79 | a sorted parameter list is determined by its multiset of parameters |
| `CacheKeys.SortedParameters` | internal/cdnserver/cache.go:74-79 | the parameters of the key are sorted, are those of the query, and hold no separator |
| `CacheKeys.TailCanonical` | internal/cdnserver/cache.go:74-80 | two raw queries give the same query part exactly when they are permutations of each other's parameters |
| `CacheKeys.KeyExactly` | internal/cdnserver/cache.go:66-82 | for methods and hosts without a bar, equal keys mean equal method, host and path with query part, and conversely |
| `CacheKeys.CacheKeyCanonical` | internal/cdnserver/cache.go:66-82 | without separators in the parts, two requests share a key exactly when they agree up to the order of query parameters |
| `CacheKeys.QuestionMarkInPathCollides` | internal/cdnserver/cache.go:66-82 | every request with a query shares its key with a different one whose path holds the query |
| `CacheKeys.BarInHostCollides` | internal/cdnserver/cache.go:66-82 | a host with a bar shares its key with a shorter host and a longer path |
| `CacheKeys.CacheKeyNotEmpty` | internal/cdnserver/cache.go:66-82 | no key is the empty string |
| `RateLimiting.TokensWithin` | internal/cdnserver/ratelimit.go:30-55 | after any calls at non-decreasing times the tokens are between zero and the capacity |
| `RateLimiting.NextConserves` | internal/cdnserver/ratelimit.go:30-55 | tokens left plus the call admitted are old tokens and elapsed time, less what exceeds the capacity |
| `RateLimiting.WindowBound` | internal/cdnserver/ratelimit.go:9-55 | in every window of d seconds at most rps + rps * d calls are admitted |
| `RateLimiting.SpacedNeverDenied` | internal/cdnserver/ratelimit.go:9-55 | calls at least 1/rps apart are all admitted |
| `RateLimiting.BurstIsExact` | internal/cdnserver/ratelimit.go:19-42 | of simultaneous calls on a full bucket exactly the first rps are admitted |
| `RateLimiting.DeniedExactly` | internal/cdnserver/ratelimit.go:30-55 | in every run a call is denied exactly when since some call more than rps * (1 + d) - 1 calls were admitted, d being the seconds since then |
| `RateLimiting.RateLimiter.constructor` | internal/cdnserver/ratelimit.go:19-26 | the bucket starts full |
| `RateLimiting.RateLimiter.Allow` | internal/cdnserver/ratelimit.go:30-42 | the object admits and moves as the bucket the run theorems are about |
| `Forwarding.UnchangedOnNode` | internal/routeserver/forwarder.go:190-213 | on a node a route counts as unchanged exactly when none of the fields forwarding uses differs; a new name alone is no change |
| `Forwarding.UnchangedOnGateway` | internal/gatewayrt/forwarder.go:188-202 | on a gateway neither the entry address nor the gateway address counts either |
| `Forwarding.DesiredIs` | internal/routeserver/forwarder.go:98-112 | a route is desired exactly when the configuration names it, as its last entry there says |
| `ListenerEndpoints.NodeListens` | internal/routeserver/forwarder.go:226-311 | on a node every running tcp or all route has a TCP listener, and every running udp or all route a UDP one, open on the route's entry address and its port or port 0, and no other |
| `ListenerEndpoints.GatewayListens` | internal/gatewayrt/forwarder.go:216-294 | the same on a gateway, on its overlay address |
| `Forwarding.StartRouteEffect` | internal/routeserver/forwarder.go:226-287 | starting a route opens exactly its listeners or, when any bind fails, leaves the open listeners as they were |
| `Forwarding.RemoveRouteConserves` | internal/routeserver/forwarder.go:555-565 | removing a route closes its listeners and no other |
| `Forwarding.PassConserves` | internal/routeserver/forwarder.go:98-157 | a reconcile pass leaves the open listeners exactly those of the routes in the map, whatever binds fail |
| `Forwarding.ListenerConservation` | internal/routeserver/forwarder.go:60-157 | over every run of starts, stops and reconciles each open listener belongs to exactly one route in the map, each route has exactly its protocol's listeners, and after a stop none are open |
| `Forwarding.PassSettles` | internal/routeserver/forwarder.go:98-157 | after one pass every running route is as desired, and an unchanged route kept its listeners |
| `Forwarding.StartSucceeds` | internal/routeserver/forwarder.go:226-287 | with settled routes, compatible endpoints and healthy binds a missing route starts |
| `OnePass.StartFails` | internal/routeserver/forwarder.go:226-287 | a start fails whenever any of its listeners conflicts with one of a running route, whichever of its binds meets it |
| `Forwarding.TwoPassConvergence` | internal/routeserver/forwarder.go:98-157 | from any state and for any visiting orders two passes leave exactly the supported desired routes running, a third pass changes nothing, and unchanged routes are never restarted |
| `ListenerEndpoints.TwoPassEndpoints` | internal/routeserver/forwarder.go:98-157 | under the same conditions the endpoints open after two passes are exactly those the desired routes' protocols, addresses and ports ask for |
| `Forwarding.OnePassNotEnough` | internal/routeserver/forwarder.go:98-157 | two routes that trade ports can leave one down after a pass in which no bind is faulty |
| `OnePass.OnePassExactly` | internal/routeserver/forwarder.go:98-157 | with compatible endpoints and healthy binds, one pass brings up all supported desired routes exactly when it visits no route before one whose outdated listeners exclude it |
| `OnePass.OnePassInEveryOrder` | internal/routeserver/forwarder.go:98-157 | one pass brings up all supported desired routes in every visiting order exactly when no route to be started is excluded by the outdated listeners of another |
| `Forwarding.ForwarderService.StartListeners` | internal/gatewayrt/forwarder.go:216-271 | opens what the protocol asks for, and undoes the first bind when the second fails |
| `Forwarding.ForwarderService.Start` | internal/gatewayrt/forwarder.go:61-74 | refused when running; listeners and routes are kept in step |
| `Forwarding.ForwarderService.Stop` | internal/gatewayrt/forwarder.go:76-98 | refused when not running; otherwise every route is stopped in some order and no listener is left open |
| `Forwarding.ForwarderService.Reconcile` | internal/gatewayrt/forwarder.go:100-156 | refused when not running; otherwise the object makes the pass that the convergence theorems are about, in some visiting order |
| `AddressBytes.MaskedIs` | internal/provisioning/wireguard.go:62-72 | masking bytes rounds the address down to a multiple of the block size |
| `AddressBytes.LastAddressIs` | internal/provisioning/wireguard.go:142-149 | OR-ing bytes with the inverted mask gives the last number of the block |
| `AddressBytes.InNetworkIs` | internal/provisioning/wireguard.go:118-129 | byte-wise subnet membership is membership in the block of numbers |
| `AddressBytes.BytesOfValue` | internal/provisioning/wireguard.go:135-139 | reading bytes as a number and writing them back is the identity |
| `AddressBytes.PaddedIsBytesOf` | internal/provisioning/wireguard.go:203-208 | a big integer's minimal bytes, left-padded with zeroes, are its fixed-width bytes |
| `OverlayAllocator.IncrementIP` | internal/provisioning/wireguard.go:135-139 | the four bytes become the next number modulo 2^32 |
| `OverlayAllocator.LastAddressInPlace` | internal/provisioning/wireguard.go:142-149 | the byte loop computes the last address |
| `OverlayAllocator.AllocateIPv4` | internal/provisioning/wireguard.go:61-132 | the result is the least address of the subnet above the network address that is neither the broadcast address, the controller's nor in use, and there is none exactly when all are taken |
| `OverlayAllocator.AllocateIPv6` | internal/provisioning/wireguard.go:153-217 | the same for IPv6: the least free address above the network address, none exactly when all are taken |
| `OverlayAllocator.LeastFreeUnique` | internal/provisioning/wireguard.go:58-61 | at most one answer meets what the allocators promise |
| `OverlayRecords.CreateExactly` | internal/provisioning/steps.go:317-330 | storing a new peer keeps every address with one owner exactly when no peer and no node but its owner holds one of its addresses |
| `OverlayRecords.WriteExactly` | internal/provisioning/provisioner.go:252-263 | writing a node record whole keeps every address with one owner exactly when nobody else holds one of its addresses |
| `OverlayRecords.AssignmentExactly` | internal/provisioning/steps.go:265-341 | storing a peer and then the loaded node record, or failing in between, keeps addresses unique exactly when nobody else holds the addresses assigned or the IPv6 address written back |
| `OverlayRecords.FreshAssignmentUnique` | internal/provisioning/enrollment.go:84-164 | it always does with unheld addresses and the node record as stored |
| `OverlayRecords.SameListingShares` | internal/provisioning/enrollment.go:108-147 | two enrollments that both allocate against the same records before either stores its peer leave an address with two owners |
| `OverlayRecords.StaleWriteBackShares` | internal/provisioning/provisioner.go:252-263 | on every hub without an IPv6 subnet that has two addresses to hand out there is a run from the controller's first store, with the allocator handing out the first, the second and the first again, in which addresses are unique until a stale write-back leaves the first with two nodes |
| `OverlayRuns.UniqueExactly` | internal/provisioning/steps.go:265-341 | from every state with unique addresses, all continuations of the operations under way, without new loads and allocations, keep them unique exactly when every address an operation has loaded or allocated is nobody else's, no peer holds an allocated one, operations on different nodes name no common address, and no two hold the same allocation |
| `OverlayRuns.LoadKeepsSound` | internal/provisioning/provisioner.go:111-116 | loading the stored record of a node keeps that condition whoever else is under way |
| `OverlayRuns.AllocateExactly` | internal/provisioning/steps.go:288-315 | an allocation keeps that condition exactly when nobody but the operation's own node holds or names its addresses, no peer does, and no other operation has allocated them |
| `OverlayRuns.RunExactly` | internal/provisioning/enrollment.go:84-164 | through every run of loads, allocations, peer and node writes, releases, new nodes and failures of any number of operations, addresses are unique and that condition holds throughout exactly when every allocation takes such addresses |
| `OverlayRuns.SecondAllocationUnsafe` | internal/provisioning/enrollment.go:108-147 | the second of two operations to allocate against the same complete listings always breaks that condition |
| `OverlayRuns.OneAtATime` | internal/provisioning/enrollment.go:84-164 | from the controller's first store, every run of operations one at a time, whatever writes fail and while listings are complete, leaves every address with one owner |
| `OverlayRegistry.OneAtATimeMesh` | internal/networking/mesh.go:18-86 | after every such run no two peers of any mesh configuration share an allowed address |
| `OverlayRegistry.MeshDisjoint` | internal/networking/mesh.go:18-86 | no two peers of a mesh configuration share an allowed address |
| `OverlayRegistry.EntryIsNode` | internal/networking/mesh.go:62-86 | the allowed addresses of a mesh entry are exactly those its node holds |
| `OverlayRegistry.Registry.constructor` | internal/networking/bootstrap.go:17-77 | the controller's first store, with its own peer and no node |
| `OverlayRegistry.Registry.Allocate` | internal/provisioning/steps.go:288-315 | against a listing of all records, or of 10000 when there are more: for each configured subnet the least address not reserved and held by no listed peer or node; fails exactly when a configured subnet is exhausted in it |
| `OverlayRegistry.Registry.GenerateKeys` | internal/provisioning/steps.go:265-341 | the object takes the events the run theorems are about: allocation, peer with the least unused addresses, node as loaded with those addresses, as far as the writes succeed; it succeeds exactly when no configured subnet is exhausted and both writes succeed, and keeps addresses unique exactly when nobody else holds what it assigns and writes back |
| `OverlayRegistry.Registry.CompleteEnrollment` | internal/provisioning/enrollment.go:84-164 | one whole operation of the run theorems, from load to end; succeeds exactly when the node exists, it owns a peer or gets one, and the writes succeed; a node that owns a peer keeps its addresses; with complete listings addresses stay unique |
| `OverlayRegistry.Registry.WriteBack` | internal/provisioning/provisioner.go:252-263 | the write event of the run theorems: stores the loaded record whole when the write succeeds, changes nothing else, and keeps addresses unique exactly when nobody else holds one of the record's |
| `OverlayRegistry.Registry.Cleanup` | internal/provisioning/steps.go:449-453 | the release event of the run theorems exactly when the node owns a peer and the delete succeeds; addresses stay unique |
| `OverlayRegistry.Registry.CollectMembers` | internal/networking/mesh.go:18-60 | each member of the groups once, without the node itself |
| `OverlayRegistry.Registry.GenerateMeshPeers` | internal/networking/mesh.go:18-86 | one entry for each other member of the groups with an overlay address and a peer, allowing exactly the addresses the node holds, none besides, and, while addresses are unique, no address twice |
| `Enrollment.TokenStore.Generate` | internal/provisioning/enrollment.go:30-49 | a new token string is stored unused, an existing one is refused |
| `Enrollment.TokenStore.Validate` | internal/provisioning/enrollment.go:52-65 | accepts exactly unused tokens that have not expired |
| `Enrollment.TokenStore.MarkUsed` | internal/storage/postgres/enrollment_token.go:54-68 | succeeds exactly on an unused token, and only then changes it |
| `Enrollment.MarkKeepsOneWinner` | internal/storage/postgres/enrollment_token.go:54-68 | the conditional update lets at most one of the interleaved calls through |
| `Enrollment.TokensOnlyAge` | internal/provisioning/enrollment.go:30-65 | over every run a token is never removed, keeps its expiry, and once used stays used |
| `Enrollment.AcceptedExactly` | internal/provisioning/enrollment.go:30-65 | in every run a token is accepted exactly until one hour after it was generated or until a call marks it used |
| `Enrollment.UndisturbedSucceeds` | internal/provisioning/enrollment.go:71-170 | from every state a new call with an acceptable token that meets no error succeeds, with or without a peer to create |
| `Enrollment.OneTimeEnrollment` | internal/provisioning/enrollment.go:71-170 | over every interleaving and every failure at most one call per token succeeds, it read the token before expiry, and the token is refused ever after |
| `LeaderElection.ReplyKeepsOrder` | internal/ha/leader.go:137-190 | whatever the lock query answers, callbacks stay alternating and one gauge updater runs exactly while leading |
| `LeaderElection.ReplyDecides` | internal/ha/leader.go:137-156 | after any reply the instance leads exactly when the reply granted the lock, and exactly a change of role is announced, once |
| `LeaderElection.LeadsByLastReply` | internal/ha/leader.go:91-156 | in every run an instance that has not stopped reports leader exactly when the last reply it acted on granted the lock |
| `LeaderElection.QueryAcquiresExactly` | internal/ha/leader.go:137-146 | a query is granted the lock exactly when it reaches the database on a live session and no other session holds it |
| `LeaderElection.PostgresLeaderElector.TryAcquire` | internal/ha/leader.go:137-156 | elects, demotes or does nothing as the reply and the current role say |
| `LeaderElection.PostgresLeaderElector.Start` | internal/ha/leader.go:91-122 | the election loop acts on every reply in turn and then, as leader, demotes; it returns demoted and with no updater running |
| `LeaderElection.LeaderHoldsLock` | internal/ha/leader.go:91-198 | in every reachable state an instance that reports leader holds the lock on its session, or is inside its shutdown, or its session has died and it has not yet handled a reply sent after that |
| `LeaderElection.OneLeader` | internal/ha/leader.go:91-198 | at most one instance reports leader with a live session outside its shutdown |
| `LeaderElection.CallbacksAlternate` | internal/app/controller.go:186-215 | over every run elected and demoted alternate, exactly one gauge updater runs while leading, none otherwise, and a stopped instance is demoted |
| `LeaderElection.LockOutlivesLeader` | internal/ha/leader.go:137-198 | a run in which a stopped leader's session still holds the lock and no other instance can be elected |
| `LeaderElection.DepthCountsTakes` | internal/ha/leader.go:137-156 | while an instance runs, the lock is held as many times as the instance took it |
| `LeaderElection.ShutdownKeepsLock` | internal/ha/leader.go:111-117 | after any shutdown on a live session, of a leader or of an instance demoted before, the session still holds the lock exactly when the instance took it more often than the shutdown unlocked it |
| `LeaderElection.ShutdownFreesLock` | internal/ha/leader.go:192-198 | a clean shutdown of a live leader frees the lock exactly when it took the lock once |
| `Provisioning.ShouldRollback` | internal/provisioning/provisioner.go:267-278 | true exactly when the backup step is at or before the failed step |
| `Provisioning.RunPipeline` | internal/provisioning/provisioner.go:163-249 | completed exactly when all steps succeed; otherwise it failed at the first failing step, with the results up to it and a rollback result where one is due |
| `Provisioning.InstallOrder` | internal/provisioning/statemachine.go:6-62 | enrolling and reprovisioning check access first, upload and configure before the service starts, generate keys before WireGuard is configured, and check last that the node is online |
| `Provisioning.UpgradeOrder` | internal/provisioning/statemachine.go:20-29 | an upgrade backs up before it uploads and swaps binaries only while the service is stopped |
| `JobProgress.RequestAccepted` | internal/domain/provisioning.go:80-105 | a start request is accepted exactly for the actions its node's state allows, state by state |
| `JobProgress.RequestStarts` | internal/provisioning/provisioner.go:123-158 | it then starts a pending job of its action exactly when the node has no active job |
| `JobProgress.JobCompletes` | internal/provisioning/provisioner.go:163-263 | from every state a job none of whose steps has failed can complete, with its whole pipeline as successful and the node online, offline after a stop, or decommissioned after a decommission |
| `JobProgress.JobFails` | internal/provisioning/provisioner.go:194-233 | a failed step ends its job as failed with the results up to it, and puts a node that was enrolling in error; other nodes keep their status |
| `ProvisioningRuns.EventKeepsWf` | internal/provisioning/provisioner.go:111-263 | every store access, failed writes included, keeps workers, job records and start requests consistent with each other |
| `ProvisioningRuns.CompletedExactly` | internal/provisioning/provisioner.go:163-249 | over every run, whatever writes fail, a stored job is completed exactly when it holds its whole pipeline as successful, and a failed one holds the successes up to one failure |
| `ProvisioningRuns.JobsMoveForward` | internal/provisioning/provisioner.go:163-249 | over every run a stored job keeps its node and action, its status never goes back, and it is final once completed or failed |
| `ActiveJobs.OneActiveJob` | internal/provisioning/provisioner.go:111-160 | over every run in which start requests for a node do not overlap it never has two active jobs |
| `ActiveJobs.OneActiveExactly` | internal/provisioning/provisioner.go:111-160 | from every state with at most one active job, all continuations without a new request for the node keep it so exactly when no request past its check stands beside an active job, and either an active job's worker will not write its record again or at most one request is under way |
| `ActiveJobs.OneActiveForEver` | internal/provisioning/provisioner.go:111-160 | all continuations whatsoever keep a stored node to one active job exactly when no request past its check stands beside an active job and an active job's worker will not write its record again |
| `ActiveJobs.StaysBlocked` | internal/provisioning/provisioner.go:123-130 | an active job whose last write was lost, alone and with no request past its check, stays so for ever: it turns away every request |
| `ActiveJobs.Drain` | internal/provisioning/provisioner.go:163-249 | from every state in which no active job's last write was lost, all active jobs of a node can be brought to their end |
| `ActiveJobs.OverlapAdmitsTwo` | internal/provisioning/provisioner.go:111-160 | any two requests under way for a node without such a job, checked or not, beside an unfinished job or not, can leave it with two active jobs |
| `NodeStatusRuns.EnrollingHasJob` | internal/provisioning/provisioner.go:163-249 | over every run an enrolling node has an enroll job that is stored as active, or whose worker is yet to write the node's final status, or whose worker failed to write it |
| `NodeStatusRuns.LostWriteStrands` | internal/provisioning/provisioner.go:194-249 | when the last write of the only active enroll job is lost, the node stays enrolling with no active job |
| `EnrollingNodes.BackedExactly` | internal/provisioning/provisioner.go:111-249 | from every state in which an enrolling node has an active enroll job, all continuations without a new request for it keep that so exactly when the worker of an active enroll job will not write its record again, or the node is not enrolling, no enroll worker has its mark or key write before it, and no enroll request is past its check or will pass it |
| `EnrollingNodes.DrainEnroll` | internal/provisioning/provisioner.go:163-249 | when no enroll job's last write was lost, all enroll jobs of an enrolling node can end and leave it enrolling |
| `NodeStatusRuns.DecommissionedExactly` | internal/provisioning/provisioner.go:111-263 | from every state a decommissioned node stays so in all continuations without a completed enrollment exactly when none of its workers may yet write another status, and every start request under way decommissions too or has yet to check while an active job's worker will not write its record again |
| `NodeStatusRuns.WorkerReopens` | internal/provisioning/provisioner.go:163-263 | from every state, a worker that may yet write another status has a continuation that does |
| `NodeStatusRuns.DecommissionWindow` | internal/provisioning/provisioner.go:236-263 | a restart accepted between a decommissioning's job record and its node write leaves the decommissioned node with a worker that may bring it back |
| `UpgradeFiles.RollbackGuard` | internal/provisioning/provisioner.go:267-278 | on the upgrade pipeline a failure rolls back exactly when it is not the first step |
| `UpgradeFiles.UpgradeSucceeds` | internal/provisioning/steps.go:107-173 | a successful upgrade installs the new binary and keeps the old one as the backup |
| `UpgradeFiles.FailureBeforeBackup` | internal/provisioning/provisioner.go:194-233 | a failed first step leaves the files untouched |
| `UpgradeFiles.FailureAfterBackup` | internal/provisioning/steps.go:142-191 | a failure after the backup step, half-done file operations included, followed by a successful rollback leaves the original binary installed |
| `UpgradeFiles.NothingToRestore` | internal/provisioning/steps.go:175-191 | with nothing installed and no backup, a failure past the swap leaves the new binary although the rollback succeeds |
| `UpgradeFiles.FailureOfBackup` | internal/provisioning/steps.go:142-158 | when the backup step fails, the original survives the rollback exactly when the backup file is absent or holds the original |
| `UpgradeFiles.UnreachableAtBackup` | internal/provisioning/steps.go:142-147 | when the backup step cannot reach the node, that is decided by the backup left before the upgrade |
| `UpgradeFiles.LeftoverBackupDowngrades` | internal/provisioning/steps.go:142-191 | after a successful upgrade, a next one that cannot reach the node at its backup step reinstalls the binary before last |
| `DnsZones.WriteExclusive` | internal/dns/validation.go:200-218 | content that passes the check keeps exclusivity exactly when no unlisted record clashes with it |
| `DnsZones.RequestKeepsExclusive` | internal/dns/dns.go:36-234 | every request keeps CNAME exclusivity while zones are within the listing limit |
| `DnsZones.CnameExclusivity` | internal/dns/dns.go:110-234 | over every run within the listing limit no record shares zone and name with a CNAME |
| `DnsZones.UnlistedNameAdmitsCname` | internal/dns/dns.go:134-141 | at a name held only by unlisted records a CNAME is admitted, and this takes a zone beyond the limit |
| `DnsExclusivity.OwnersAgree` | internal/dnsserver/miekg.go:429-438 | two records of a zone share an owner name exactly when their names agree up to letter case and ways of writing the apex |
| `DnsExclusivity.ServedExclusivity` | internal/dnsserver/miekg.go:398-438 | over every run within the listing limit the served records of a zone keep CNAME exclusivity exactly when no CNAME's name occurs in another spelling |
| `DnsExclusivity.LowerCaseNamesSuffice` | internal/dnsserver/miekg.go:429-438 | served exclusivity follows from the controller's where names are in lower case and the apex is written "@" |
| `DnsExclusivity.NewSpellingAdmitted` | internal/dns/validation.go:200-218 | the controller admits every record whose name is a new spelling of a CNAME's, and both are then served under one owner name |
| `DnsZones.SerialCountsMutations` | internal/storage/postgres/dns_zone.go:129-180 | over every run a zone's serial is one more than its successful record mutations since it was created, whatever zone updates happen |
| `DnsZones.ChangeShows` | internal/dns/dns.go:110-234 | while the serial write succeeds, a request that leaves a zone's serial leaves its records |
| `DnsZones.SameSerialSameRecords` | internal/dns/dns.go:110-234 | over every run in which no serial write fails, a zone seen twice with one serial has the same records, and serials never go back |
| `DnsEffects.CreateRecordEffect` | internal/dns/dns.go:110-153 | the record is stored as given exactly when its zone exists, its id is new, it is valid, no other listed record clashes and the write succeeds; only that zone's serial moves |
| `DnsEffects.UpdateRecordEffect` | internal/dns/dns.go:163-215 | the fields the request names have the new values and the others the old ones, exactly when the result is valid, clashes with no other listed record and the write succeeds |
| `DnsEffects.DeleteRecordEffect` | internal/dns/dns.go:217-234 | exactly the record goes |
| `DnsEffects.CreateZoneEffect` | internal/dns/dns.go:36-58 | the zone is stored active with serial 1, its fields as given and TTL 3600 for 0, exactly when it is valid and new and the write succeeds |
| `DnsEffects.UpdateZoneEffect` | internal/dns/dns.go:68-102 | the named fields change, the group is cleared when asked, the serial and everything else stay |
| `DnsEffects.DeleteZoneEffect` | internal/dns/dns.go:104-106 | exactly the zone and its own records go |
| `DnsZones.DnsService.CheckCnameExclusivity` | internal/dns/validation.go:200-218 | the two passes admit exactly content that clashes with no other listed record |
| `DnsZones.DnsService.CreateZone` | internal/dns/dns.go:36-58 | the store step of the run theorems, with serial 1 and default TTL |
| `DnsZones.DnsService.UpdateZone` | internal/dns/dns.go:68-102 | the store step of the run theorems: named fields are patched, the serial is not touched, and any refusal changes nothing |
| `DnsZones.DnsService.DeleteZone` | internal/dns/dns.go:104-106 | the zone goes with its records |
| `DnsZones.DnsService.CreateRecord` | internal/dns/dns.go:110-153 | the store step of the run theorems, refusals and failed writes included |
| `DnsZones.DnsService.UpdateRecord` | internal/dns/dns.go:163-215 | the store step of the run theorems, refusals and failed writes included |
| `DnsZones.DnsService.DeleteRecord` | internal/dns/dns.go:217-234 | the store step of the run theorems, failed writes included |
| `DnsLookup.MatchesLabels` | internal/dnsserver/miekg.go:358-365 | the suffix test matches a zone exactly when its labels are the last labels of the name |
| `DnsLookup.BestZoneIs` | internal/dnsserver/miekg.go:164-189 | the zone that serves a name is the longest that matches, and the last configured of equal ones |
| `DnsLookup.UndottedZoneNeverMatches` | internal/dnsserver/miekg.go:358-365 | a zone name without a final dot matches no fully qualified name |
| `DnsLookup.OwnerInZoneExactly` | internal/dnsserver/miekg.go:429-438 | a zone matches the owner names of its records exactly when it is stored with its final dot |
| `DnsLookup.OwnZoneServesExactly` | internal/dnsserver/miekg.go:358-365 | a zone serves an owner name of its own exactly when it has its final dot, no longer zone matches the name and no zone of the same name comes after it |
| `DnsLookup.NameErrorExactly` | internal/dnsserver/miekg.go:309-324 | NXDOMAIN is answered exactly when a zone serves the name, holds no record at it, and the answer is neither a transfer nor synthesized |
| `DnsLookup.RecordIsServed` | internal/dnsserver/miekg.go:284-311 | in a zone with its final dot, without a longer matching zone or a later one of the same name, asking for a configured record by owner name and type in any letter case gives a positive answer that holds it |
| `DnsLookup.AnswersAreConfigured` | internal/dnsserver/miekg.go:210-328 | whatever is answered is a record of the serving zone or one of the two synthesized records |
| `DnsAnswers.DirectAnswer` | internal/dnsserver/miekg.go:284-311 | asked for a type its zone has at the name, the server answers with exactly those records in configuration order |
| `DnsAnswers.CnameAnswer` | internal/dnsserver/miekg.go:289-307 | asked for another type at a name with a CNAME, it answers with the name's CNAMEs and then exactly the zone's records of that type at the first one's target, each group in configuration order |
| `DnsAnswers.AuthorityAnswer` | internal/dnsserver/miekg.go:249-256 | asked for the SOA of any name it serves, it answers with the zone's, its serial included |
| `DnsAnswers.NameServerAnswer` | internal/dnsserver/miekg.go:258-282 | asked for the name servers of a zone that configures none, it answers with ns1 below the zone |
| `DnsAnswers.NegativeAnswer` | internal/dnsserver/miekg.go:309-324 | otherwise the answer is empty with the zone's SOA as authority, and NXDOMAIN exactly when no record has the name |
| `DnsAnswers.RefusedExactly` | internal/dnsserver/miekg.go:229-240 | a query is refused exactly when no configured zone matches its name |
| `DnsAnswers.OtherAnswers` | internal/dnsserver/miekg.go:218-247 | a transfer of a zone it serves is handed over, and a request without a question fails |
| `DnsAnswers.ServedAs` | internal/dnsserver/miekg.go:429-530 | a record is served under its fully qualified owner name, with its own positive TTL or the zone's, and with type number and data as its kind and fields say |
| `DnsAnswers.LeftOutExactly` | internal/dnsserver/miekg.go:440-530 | a record is left out exactly when its kind is not supported, or its address or CAA value cannot be read |
| `DnsServer.IndexIs` | internal/dnsserver/miekg.go:398-426 | looking a key up in the index gives the zone's records with that key in configuration order |
| `DnsServer.IndexNames` | internal/dnsserver/miekg.go:369-376 | a name occurs among the index keys exactly when some record has it |
| `DnsServer.FirstMatchIsBest` | internal/dnsserver/miekg.go:358-365 | the first match in the sorted list is the best zone |
| `DnsServer.BestZoneInTable` | internal/dnsserver/miekg.go:164-189 | the table holds, under its name, the data of the best zone and not of a duplicate |
| `DnsServer.SortByLengthDesc` | internal/dnsserver/miekg.go:532-539 | in place: a permutation in order of non-increasing length |
| `DnsServer.MiekgService.BuildZoneData` | internal/dnsserver/miekg.go:398-426 | the nested loops build the index of all converted records |
| `DnsServer.MiekgService.Reconcile` | internal/dnsserver/miekg.go:164-189 | refused when not running; otherwise exactly the given configuration is served from now on |
| `DnsServer.MiekgService.Stop` | internal/dnsserver/miekg.go:134-162 | refused when not running; otherwise nothing is served, also when a shutdown reports an error |
| `DnsServer.MiekgService.FindZone` | internal/dnsserver/miekg.go:358-365 | finds the data of the best zone, or nothing when no configured zone matches |
| `DnsServer.MiekgService.NameExistsInZone` | internal/dnsserver/miekg.go:369-376 | true exactly when some key has the name, whatever the order the map is visited in |
| `DnsServer.MiekgService.AnswerFrom` | internal/dnsserver/miekg.go:241-328 | the indexed lookup answers like a scan of all records of the zone |
| `DnsServer.MiekgService.HandleQuery` | internal/dnsserver/miekg.go:210-328 | every query is answered as plain scans of the configuration being served say: refusal, SOA, apex NS, records, one CNAME step, or a negative answer |
| `Encodings.ScanPrint` | internal/auth/token.go:115-121 | scanning a printed 64-bit integer gives it back |
| `Encodings.ParseUuidString` | internal/auth/token.go:99-111 | parsing a printed UUID gives it back |
| `Encodings.DecodeEncode` | internal/auth/token.go:59-90 | decoding unpadded URL-safe base64 undoes encoding, and the encoding holds no dot |
| `Encodings.DecimalNotation` | internal/auth/token.go:49-57 | integers are printed in decimal notation |
| `Encodings.UuidLayout` | internal/auth/token.go:49-57 | a printed UUID is its hexadecimal digits in groups of 8, 4, 4, 4 and 12 |
| `Encodings.HexAt` | internal/auth/token.go:49-57 | each byte of a UUID is two lower-case hexadecimal digits, the high one first |
| `Encodings.PackThree` | internal/auth/token.go:59-65 | three bytes are encoded as the four 6-bit digits of the number they make up |
| `Encodings.PackLeftOver` | internal/auth/token.go:59-65 | one or two bytes left over become two or three digits filled up with zero bits, without padding |
| `Encodings.SymbolIsStandard` | internal/auth/token.go:59-65 | the digits are written in the URL-safe alphabet of section 5 of RFC 4648, each at its place (`SymbolAt`) |
| `SessionToken.PayloadSplits` | internal/auth/token.go:49-57 | splitting the payload gives its fields, with one more field for each separator in the role |
| `SessionToken.IssueVerify` | internal/auth/token.go:37-140 | for every identity and all times, verifying an issued token gives its claims until it expires, a refusal afterwards, and a refusal always when the role holds a separator |
| `SessionToken.IssuedUntil` | internal/auth/token.go:37-140 | in nanoseconds: an issued token is accepted exactly until the end of the second in which its lifetime ends |
| `SessionToken.FlaglessToken` | internal/auth/token.go:92-140 | a signed token with the five fields of older versions is accepted like any other, without a pending second factor |
| `SessionToken.PayloadDecides` | internal/auth/token.go:67-90 | beside an accepted token, another signature text for its payload gets the same verdict exactly when it decodes to the same bytes |
| `SessionToken.ExpiryIsMonotone` | internal/auth/token.go:123-126 | a token accepted at some time was accepted with the same claims at every earlier time |

## Left out

- OverlayAllocator.AllocateIPv4: for prefix length 0 it requires a free address, because the scan then wraps around the address space and never ends when all are taken.
- DiskCache.DiskCache.Put: requires a key that is not empty for a response that is stored, because the eviction scan uses the empty string for "none found" and can then go on for ever; `CacheKeyNotEmpty` shows callers meet this.
- HybridCache.HybridCache.Put: requires a key that is not empty for a response that is stored, for the same reason.
- HybridCache.HybridCoherence: says which payload a hit returns, not how fresh it is: each move between tiers restarts the TTL, so a response can be served past its first TTL.
- HybridCache.HybridCache.constructor: starts with an empty disk; the index rebuilt from files of an earlier process is not modelled.
- LruCache.Cache.Get: returns the slot's value, not the live entry, so later in-place updates seen through a returned pointer are not captured.
- RateLimiting.RateLimiter.constructor: takes a rate that is not negative; site validation admits only positive ones.
- RateLimiting.WindowBound: over real numbers, without floating-point rounding.
- Forwarding.UnchangedOnNode: a route is modelled by its name and the fields forwarding uses; its tenant, gateway reference, status and dates, which a change of configuration may also touch, are not.
- Forwarding.UnchangedOnGateway: the same.
- Forwarding.TwoPassConvergence: ICMP routes, which open no listener, are not modelled.
- OverlayRegistry.Registry.CompleteEnrollment: writes the node's addresses and not its status, which `ProvisioningRuns.dfy` models.
- OverlayRuns.OneAtATime: assumes complete listings; beyond 10000 records an allocation may take an address an unlisted record holds, and `AllocateExactly` says when that breaks uniqueness.
- OverlayRuns.RunExactly: fleet edits, which load and write whole node records too, are operations like any other here; deleting nodes, and deleting peers other than by cleanup, is not modelled.
- DnsZones.CnameExclusivity: requests are one step each, so two overlapping requests that both pass the check are not modelled.
- NodeStatusRuns.DecommissionedExactly: node status writers other than pipelines and enrollment, such as heartbeats, which set a node online, and fleet edits, are not modelled.
- Deleting nodes and jobs.
- Hit and miss counters, metrics, audit events and logging throughout.
- The JSON form of stored headers, and file names.
- TCP and UDP relaying once a listener is open, and UDP session expiry.
- Zone transfers (AXFR) and their access lists: the server's answer is only marked as a transfer.
- Wire encoding of DNS messages, and IP address parsing, which is a parameter.
- The syntax rules for zone names and record values, which are parameters of the DNS service.
- HMAC itself, which is a parameter: nothing is proved about forging signatures.
- Letter case and white space beyond ASCII.
- IPv4 subnets written in IPv4-mapped IPv6 form, WireGuard key generation and configuration files.
- The SSH sessions, service files and health checks of the provisioning steps beyond their success and their effect on the binaries.
- BGP, the WAF, health checks and load balancing of origins, certificates, multi-tenancy checks, the REST API and the user interface.
