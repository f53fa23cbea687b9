# NextProxy Panel: a verified model of its stateful protocols

The Panel sells proxy slots, builds Xray configurations for its nodes and accounts their traffic; the
agent on a node polls the Panel and keeps a running Xray process in step. This project models the parts
whose correctness depends on more than one function body, and proves what they keep over whole runs.
`dafny verify dfyconfig.toml` checks all of it.

| files | what they model |
|---|---|
| `Allocator`, `PoolService`, `AllocationRaces`, `AllocationHazards` | the Socks5 inventory: whole calls on values, the service with its loops, every interleaving of single transactions, and what overlaps do to statuses and active allocations |
| `Locations` | the location tree and the grouped inventory, two summaries of the same rows |
| `Generator`, `GeneratorService` | the agent's configuration generator with its shared routing object |
| `HotSync`, `Agent` | the diff-based hot reload, and the agent as a machine of ticks, kicks and restarts |
| `TrafficCounters`, `TrafficService`, `TrafficBuffer` | the two routes of reported traffic, each as a machine of single Redis commands and as straight-line service code |
| `ConfigPolling` | the ETag protocol between agent and Panel |
| `ClientIndex`, `ClientCopies`, `ClientService` | client rows and their copies in inbound settings: which emails are listed, and with which credentials |
| `NodeHealth` | the health checker with its expiring counters |
| `Turns`, `NodeSelector` | turn taking modulo n, and node selection |
| `BatchSpread`, `Labels`, `BatchRows`, `BatchService` | spreading batch entries over ports and egress IPs, naming them, and creating their rows statement by statement |
| `Sums` | finite sums used by the conservation laws |

Modules without a class hold the specification as functions and its theorems; classes hold the code as
it runs, each method proved against those functions. What a database, a clock, Redis expiry, a random
generator or a remote call decides is a parameter or a nondeterministic event: row order, current time,
fresh ids, success or failure of a call, and the answer of a query.

## What the proofs found

Where a natural claim about the system turned out false, the project keeps the behaviour, names a
concrete run or input that breaks the claim, and proves the condition under which it holds.

- Two overlapping releases of one allocation both commit, and the counter falls below the allocations
  behind it (`DoubleReleaseDrifts`). The drift is exactly the number of late release transactions
  (`CounterDrift`); counters stay exact if and only if no two releases under way name the same allocation
  (`StaysExactIff`).
- The oversell bound of K - 1 extra slots for K overlapping requests is reached (`BoundIsReached`).
- An http inbound is given a clients list but authenticates against accounts, so it keeps serving what its
  settings came with (`HttpAccountsEscape`, `ServesOnlyListedIff`, `HotSyncRefinesRebuildIff`).
- The shared routing list grows by one API rule per config tick; routing is unaffected (`RegeneratedShape`,
  `RegenerationKeepsRouting`).
- After a restart rate limits are not pushed again until they change (`RestartLosesLimits`); the core holds
  all listed limits exactly when each has changed since its process started (`LimitsCompleteIff`).
- Counter-route double entry needs reports without mixed signs (`ReportBalancedIff`).
- A row whose status comes from a stale read can stay marked exhausted with room (`StaleStatusHides`), and a
  slot taken after the guard of a deletion is lost with the row (`DeletionLosesSlot`); `NeverHidden` and
  `OnlyReleasesEnd` say which overlaps it takes.
- Two readers of one buffer count its bytes twice; the route is safe exactly when no two workers stand between
  LRANGE and DEL of the same buffer (`SafeIffOneReader`).
- Traffic is credited to a client found by email across all tenants; it is sure to stay in the node's tenant
  exactly when no other tenant has an email with traffic (`StaysInTenantIff`).
- An answer half built during an invalidation brings the old ETag back (`HalfBuiltAnswerDefeats`); an
  invalidation can be relied on exactly when no such answer holds other data (`InvalidationHoldsIff`).
- A batch is not a transaction: user names start over with each batch, so no request can be repeated
  (`RepeatedBatchFails`), and a batch that breaks off leaves what came before (`ClientsLeft`). `SocksDoneIff` and
  `RelayDoneIff` say exactly when all entries become clients.
- Batch clients go through rows found by tag alone. Two accounts on one gateway end up on one outbound
  (`OneGatewayTwoAccounts`); `SocksLeadIff` and `RelayLeadIff` say exactly when every client uses its own port
  and its own way out.
- Not every update is copied to the inbounds: a changed level alone, or a cleared uuid, leaves stale copies
  (`SomeChangesGoStale`); `UpdateCurrentIff` and `CopiesStayCurrentIff` give the exact condition.
- Accounts of created clients in socks and http inbounds have no password (`CreatedAccountsHaveNoPassword`).
- Status reports force a node online without resetting the failure counter, so one failed check can take
  it offline again (`ReportDefeatsHysteresis`); `NextMarkIsEarnedIff` gives the exact condition.
- A port range with min > max puts every entry on port min (`PortsInRangeIff`).

## Model

| member | source | states |
|---|---|---|
| Allocator.Allocatable | apps/api/src/plugins/gosea/services/socks5-pool.service.ts:49-53 | the rows with room are exactly the queried rows whose counter is below the maximum, each once |
| Allocator.AllocatableIsInventory | apps/api/src/plugins/gosea/services/socks5-pool.service.ts:37-53 | whatever the order of the answer, a request sees exactly the rows of its tenant, country and city that are available or allocated, not expired and below their maximum |
| Allocator.TakeEachIsTakeAll | apps/api/src/plugins/gosea/services/socks5-pool.service.ts:60-77 | the loop of single transactions leaves what taking all chosen rows at once leaves: because the quantity never exceeds the number of allocatable rows, no row is picked twice and every status computed from the stale snapshot is right |
| Allocator.AllocatesLeastUsed | apps/api/src/plugins/gosea/services/socks5-pool.service.ts:37-50 | a row left out although it matched and had room is at least as used as every row that was taken |
| Allocator.TakeAllBalances | apps/api/src/plugins/gosea/services/socks5-pool.service.ts:60-77 | a granted request keeps the books: counter = active allocations, no row oversold, "exhausted" marks exactly the full rows |
| Allocator.ReleaseAllBalances | apps/api/src/plugins/gosea/services/socks5-pool.service.ts:94-112 | releasing any list of ids, repeated, unknown, foreign or already released ones included, keeps the books |
| Allocator.ReleaseMeaning | apps/api/src/plugins/gosea/services/socks5-pool.service.ts:94-112 | an allocation is active afterwards if and only if it was active before and is not one that its own tenant named, however often; nothing else of it changes |
| Allocator.ReleaseRows | apps/api/src/plugins/gosea/services/socks5-pool.service.ts:102-108 | every row gives back one slot for each allocation that ends on it, and is available again if there is one |
| Allocator.AddAllBalances | apps/api/src/plugins/gosea/services/socks5-pool.service.ts:9-33 | new proxies start unused and keep the books |
| Allocator.DeleteBalances | apps/api/src/plugins/gosea/services/socks5-pool.service.ts:146-151 | a deletion that passes the guard keeps the books and its cascade takes no active allocation |
| Allocator.RunsBalance | apps/api/src/plugins/gosea/services/socks5-pool.service.ts:9-112 | in every sequential run of add, allocate, order, release and delete every counter equals the active allocations behind it, no row is oversold, "exhausted" marks exactly the full rows and no allocation points to a deleted proxy |
| Allocator.OnlyReleaseEndsAllocations | apps/api/prisma/schema.prisma:713-732 | in every run an active allocation disappears only when its own tenant releases it by id; no other operation, deletion with its cascade included, changes it |
| PoolServices.PoolService.AddToPool | apps/api/src/plugins/gosea/services/socks5-pool.service.ts:9-31 | inserts one unused, available row per proxy with its fields and a default maximum of 1, changes no other row, reports how many, and keeps the books |
| Allocator.TakeOneBalances | apps/api/src/plugins/gosea/services/socks5-pool.service.ts:62-76 | one transaction on a row with room, from a snapshot that is still true, keeps counter, status and foreign keys right |
| PoolServices.PoolService.Consume | apps/api/src/plugins/gosea/services/socks5-pool.service.ts:60-77 | the modulo loop runs exactly the transactions on the first `quantity` remembered rows, in order, and returns their ids |
| PoolServices.PoolService.Allocate | apps/api/src/plugins/gosea/services/socks5-pool.service.ts:33-92 | refuses with the size of the inventory if that is below the quantity and changes nothing, or takes one slot each of rows of the inventory, which become exhausted exactly when full, and changes no other row; the books stay balanced |
| PoolServices.PoolService.CreateOrder | apps/api/src/plugins/gosea/services/order.service.ts:19-78 | same inventory step under a new order; any refusal, too little inventory or no relay node, leaves no trace |
| PoolServices.PoolService.Release | apps/api/src/plugins/gosea/services/socks5-pool.service.ts:94-112 | ends every active allocation of the tenant that is named and no other, counts each once, and gives every row its slots back |
| PoolServices.PoolService.DeleteFromPool | apps/api/src/plugins/gosea/services/socks5-pool.service.ts:146-151 | not found, in use, or deleted with its cascade; never loses an active allocation |
| PoolServices.ConsumedIsTaken | apps/api/src/plugins/gosea/services/socks5-pool.service.ts:60-77 | what the consuming loop does to the remembered rows is the whole request, and the books balance afterwards |
| PoolServices.IdsNameClaims | apps/api/src/plugins/gosea/services/socks5-pool.service.ts:79-90 | the i-th id handed out names a new active allocation on the i-th chosen row |
| PoolServices.ReleasedGrows | apps/api/src/plugins/gosea/services/socks5-pool.service.ts:94-112 | the returned count grows exactly for ids that end an allocation not ended before |
| AllocationRaces.OversellBound | apps/api/src/plugins/gosea/services/socks5-pool.service.ts:37-77 | in every interleaving with at most K requests between read and last transaction, counter plus pending picks never exceed maxAllocations + K - 1 |
| AllocationRaces.CounterDrift | apps/api/src/plugins/gosea/services/socks5-pool.service.ts:94-112 | in every interleaving the active allocations of a row are its counter plus the release transactions that hit an allocation already released |
| AllocationRaces.ActiveBound | apps/api/src/plugins/gosea/services/socks5-pool.service.ts:37-112 | both laws together bound the allocations customers really hold |
| AllocationRaces.StaysExactIff | apps/api/src/plugins/gosea/services/socks5-pool.service.ts:94-112 | as long as no release starts on an allocation being released, every continuation keeps every counter exact if and only if no two releases under way name the same allocation and none names one already released |
| AllocationRaces.ExactWithDistinctReleases | apps/api/src/plugins/gosea/services/socks5-pool.service.ts:94-112 | in every run in which overlapping releases name different allocations, every counter is exact, whatever else overlaps |
| AllocationRaces.BoundIsReached | apps/api/src/plugins/gosea/services/order.service.ts:24-78 | the bound is tight: for every K some run brings a one-slot row to K allocations |
| AllocationRaces.DoubleReleaseDrifts | apps/api/src/plugins/gosea/services/socks5-pool.service.ts:96-107 | two overlapping releases of one allocation drive the counter to -1 with no allocation behind it |
| AllocationHazards.NeverHidden | apps/api/src/plugins/gosea/services/socks5-pool.service.ts:37-77 | in every run in which no release commits on a row between a request's read and its transaction, no row with room is marked exhausted |
| AllocationHazards.StaleStatusHides | apps/api/src/plugins/gosea/services/socks5-pool.service.ts:63-70 | otherwise one request and one release can leave a row with room marked exhausted, which no inventory query returns |
| AllocationHazards.EndedExactly | apps/api/src/plugins/gosea/services/socks5-pool.service.ts:94-112 | in any state, a release ends the allocation it found, a deletion ends all active allocations of its row, and no other step ends any |
| AllocationHazards.DeletionTakes | apps/api/src/plugins/gosea/services/socks5-pool.service.ts:146-152 | in every run with distinct releases, a deletion takes as many active allocations along as the counter shows when it commits, so none if and only if its guard still holds then |
| AllocationHazards.OnlyReleasesEnd | apps/api/src/plugins/gosea/services/socks5-pool.service.ts:94-152 | if besides no slot is taken of a row whose deletion has passed its guard, an active allocation ends only by a release that names it, whatever overlaps |
| AllocationHazards.DeletionLosesSlot | apps/api/src/plugins/gosea/services/socks5-pool.service.ts:146-152 | a slot taken after the guard of a deletion is lost with it, even with a single request under way |
| Locations.Credit | apps/api/src/plugins/gosea/services/location.service.ts:59-96 | finding or creating the nodes of a path adds the amount to every prefix of the path and to nothing else; codes stay distinct and counts positive |
| Locations.GetLocationsTree | apps/api/src/plugins/gosea/services/location.service.ts:41-100 | at every path the tree shows exactly the free slots of the rows below it; siblings have distinct codes and every count is positive |
| Locations.CountsAtIff | apps/api/src/plugins/gosea/services/location.service.ts:59-96 | a row counts at exactly these paths: its continent, given or by its country, its country there, and its city there if it has one |
| Locations.SiblingsAddUp | apps/api/src/plugins/gosea/services/location.service.ts:62-96 | siblings below a path account for all free slots there but those of rows that stop at the path itself |
| Locations.ContinentsCountCountries | apps/api/src/plugins/gosea/services/location.service.ts:62-82 | every continent counts exactly its countries |
| Locations.CountriesCountCities | apps/api/src/plugins/gosea/services/location.service.ts:72-96 | every country counts its cities and its rows without a city |
| Locations.InventoryTotal | apps/api/src/plugins/gosea/services/socks5-pool.service.ts:114-129 | the available slots of all inventory groups add up to the free slots of the rows |
| Locations.ViewsAgree | apps/api/src/plugins/gosea/services/socks5-pool.service.ts:114-129 | under the allocator invariant tree total, inventory total and the free capacity of the whole pool are the same number |
| Locations.TakingLowersCapacity | apps/api/src/plugins/gosea/services/socks5-pool.service.ts:60-77 | a granted request lowers the free capacity of its tenant by exactly its quantity |
| Locations.OthersKeepCapacity | apps/api/src/plugins/gosea/services/socks5-pool.service.ts:37-47 | requests of other tenants leave it alone |
| Generator.BuiltServesListed | apps/agent/internal/xray/clients.go:23-69 | a built inbound serves exactly its listed users; an http inbound instead serves the accounts its own settings came with |
| Generator.ServesOnlyListedIff | apps/agent/internal/xray/clients.go:36-45 | a rebuilt inbound can never serve an unlisted user if and only if it is not an http inbound with accounts of its own |
| Generator.RegeneratedShape | apps/agent/internal/xray/generator.go:95-117 | after k calls on one configuration the shared rule list is exactly k API rules followed by the originally valid rules in order |
| Generator.RegenerationKeepsRouting | apps/agent/internal/xray/generator.go:95-117 | first-match routing of every request is the same after k calls as after one |
| Generator.KeptInOrder | apps/agent/internal/xray/generator.go:174-180 | the kept outbounds stand in their original relative order |
| Generator.KeptIff | apps/agent/internal/xray/generator.go:174-180 | kept are exactly the first occurrences of tags other than direct and api |
| Generator.DirectIsDirect | apps/agent/internal/xray/generator.go:119-168 | the default route is the first outbound tagged direct, or the built-in one exactly when there is none |
| Generator.NormalisedShape | apps/agent/internal/xray/generator.go:119-181 | direct first, api second, tags pairwise distinct, and no other tag appears or is lost |
| Generator.NormalisingIsIdempotent | apps/agent/internal/xray/generator.go:119-181 | normalising an already normalised list changes nothing |
| GeneratorServices.GroupUsers | apps/agent/internal/xray/clients.go:13-19 | groups hold the users of each tag in list order, as often as they name it |
| GeneratorServices.BuildSocksAccounts | apps/agent/internal/xray/clients.go:72-82 | one account per user in order, with the email as user and the password as pass, and nothing else |
| GeneratorServices.BuildClients | apps/agent/internal/xray/clients.go:85-122 | one entry per user in order, with email, level, the credential of the protocol (uuid for vless and vmess, password for trojan and shadowsocks), the options that are set, and no other field |
| GeneratorServices.BuildInboundsWithClients | apps/agent/internal/xray/clients.go:12-69 | every inbound gets accounts or clients with the credentials of the users of its tag; nothing else of it changes |
| GeneratorServices.ValidRules | apps/agent/internal/xray/generator.go:99-116 | the API rule and then exactly the objects with an outboundTag or balancerTag, in order |
| GeneratorServices.NormaliseOutbounds | apps/agent/internal/xray/generator.go:119-181 | the loops compute the normalised outbound list |
| GeneratorServices.Generate | apps/agent/internal/xray/generator.go:46-184 | writes the regenerated rules through the shared routing object of its input, or into a fresh one if there is none; inbounds and outbounds are the built and normalised lists |
| GeneratorServices.UnchangedTicks | apps/agent/internal/manager/loops.go:22-38 | k config ticks on one unchanged configuration leave k API rules in the shared object and route every request as one tick would |
| HotSync.RemoveGone | apps/agent/internal/manager/loops.go:144-151 | in any order, exactly the listed users that are gone get one removal each; what stays is what failed |
| HotSync.AddNew | apps/agent/internal/manager/loops.go:153-160 | in any order, exactly the users not listed before get one addition each |
| HotSync.MapOld | apps/agent/internal/manager/loops.go:105-113 | the nested map holds for every tag the emails the old list gives it |
| HotSync.MapNew | apps/agent/internal/manager/loops.go:115-123 | for every tag and email the nested map holds the last entry of the new list |
| HotSync.HotSyncUsers | apps/agent/internal/manager/loops.go:100-172 | for every map-iteration order each (tag, email) on which the lists differ gets exactly one call, no other gets any, and every running set ends as the difference says, failed calls excepted |
| HotSync.HotSyncRefinesRebuildIff | apps/agent/internal/manager/loops.go:100-172 | from an inbound built for the old list and with all calls succeeding, hot sync ends with what a full rebuild for the new list would serve, exactly when the inbound is not an http one or the difference agrees with its own accounts |
| HotSync.HotSyncRateLimits | apps/agent/internal/manager/loops.go:175-208 | for every map-iteration order, every email whose limit differs between the lists gets exactly one call with its new value or a removal, no other gets any, and failed calls excepted it ends with that limit |
| HotSync.LimitsOfMeaning | apps/agent/internal/manager/loops.go:177-184 | the limits of a list are those of the last entry of each email, upload first, and no others |
| HotSync.LimitsArriveIff | apps/agent/internal/manager/loops.go:175-208 | with all calls succeeding the core ends with exactly the new limits if and only if it already held the right limit of every email on which the two lists agree |
| Agent.FreshProcessListed | apps/agent/internal/manager/tasks.go:103-119 | on every tag a freshly started process serves only listed users if no http inbound of the tag has accounts of its own, and exactly the listed ones if the tag has no http inbound |
| Agent.NobodyUnlistedIsServed | apps/agent/internal/manager/loops.go:71-95 | in every run of start, user ticks, config ticks, kicks and crashes, a tag on which removals succeed and whose http inbounds bring no accounts serves only emails the stored user list gives it; additions may fail and other tags may do anything |
| Agent.EverybodyListedIsServed | apps/agent/internal/manager/loops.go:71-95 | a tag without http inbounds, kicks and failed calls serves exactly its listed users throughout |
| Agent.HttpAccountsEscape | apps/agent/internal/xray/clients.go:35-45 | an http inbound with an account serves it although nobody is listed |
| Agent.LimitHeld | apps/agent/internal/manager/loops.go:195-204 | in every run in which the limit calls for an email succeed, the core holds its listed limit if that has changed since the process started, and none otherwise |
| Agent.LimitsCompleteIff | apps/agent/internal/manager/loops.go:175-208 | the core enforces all listed limits if and only if the limit of every limited email has changed since the present process started |
| Agent.RestartLosesLimits | apps/agent/internal/manager/loops.go:22-38 | a run in which a limit arrives, a restart loses it and the unchanged list does not bring it back |
| Agent.Manager.GenerateAndWriteConfig | apps/agent/internal/manager/tasks.go:103-119 | writes the built inbounds of the stored configuration, and even when the write fails the shared routing rules have been regenerated; without configuration it succeeds and writes nothing |
| Agent.Manager.Start | apps/agent/internal/manager/manager.go:57-95 | starts exactly if both polls succeed, the file can be written and the process comes up; it then serves what the stored lists give and holds no limits, and otherwise the core is untouched |
| Agent.Manager.OnConfigTick | apps/agent/internal/manager/loops.go:22-38 | one config tick is the step of the machine that its outcome names, for every point at which it can break off |
| Agent.Manager.OnUserTick | apps/agent/internal/manager/loops.go:70-95 | one user tick is a step of the machine: it makes exactly the user and limit calls the differences of the lists demand, and tracks the emails of the new list; a failed poll makes none |
| Agent.Manager.OnKick | apps/agent/internal/manager/loops.go:303-315 | a kick makes one removal call per inbound of the current configuration and takes only the kicked email out |
| TrafficCounters.ReportAdds | apps/api/src/redis/redis.service.ts:300-338 | a report credits clients with their positive items and its node with the positive part of the total |
| TrafficCounters.ReportReaches | apps/api/src/redis/redis.service.ts:304-337 | key by key: a client or inbound counter receives the positive bytes of the items that name it, in their direction, the own node the positive part of its total, every other key nothing |
| TrafficCounters.ReportBalancedIff | apps/api/src/redis/redis.service.ts:308-335 | a report credits its node what it credits its clients if and only if no item is negative or none is positive in that direction |
| TrafficCounters.TakeBalance | apps/api/src/queues/processors/timeseries-aggregation.processor.ts:60-65 | GETDEL moves the whole live counter into the hands of the job |
| TrafficCounters.StoreBalance | apps/api/src/queues/processors/timeseries-aggregation.processor.ts:67-89 | storing moves what the job holds into a bucket, or accounts it as dropped |
| TrafficCounters.LedgerIsExact | apps/api/src/queues/processors/timeseries-aggregation.processor.ts:53-128 | at every micro-step of every interleaving, reported = live counter + taken but not stored + all buckets + dropped + held by failed jobs, for every node and inbound and direction; reports between scan and GETDEL, repeated keys and down-only keys included |
| TrafficCounters.SeriesMatchStats | apps/api/src/queues/processors/timeseries-aggregation.processor.ts:72-88 | the time series of every node and inbound adds up to its statistics rows, but for rows still due and rows a failing job never wrote |
| TrafficCounters.EntriesMatchAlways | apps/api/src/redis/redis.service.ts:308-337 | for balanced reports, node credits sent and due equal client credits sent and due in every state |
| TrafficCounters.DoubleEntry | apps/api/src/queues/processors/timeseries-aggregation.processor.ts:130-174 | whenever nothing is half done, what all nodes hold equals what all clients hold, dropped bytes of unknown emails included |
| TrafficServices.TrafficStore.CollectPipeline | apps/api/src/redis/redis.service.ts:304-335 | collects the commands of the items in order; together they add to every key what the items have for it |
| TrafficServices.TrafficStore.IncrTraffic | apps/api/src/redis/redis.service.ts:300-338 | every counter of every entity and direction gains exactly what the items have for it |
| TrafficServices.TrafficStore.AggregateTraffic | apps/api/src/queues/processors/timeseries-aggregation.processor.ts:53-90 | the drained entities are a prefix of the scan, each drained once even if scanned twice; buckets gain what their counters held and so do the statistics of entities that still have a row; the job ends early exactly when a scanned entity with bytes has lost its row |
| TrafficServices.ReportFollows | apps/api/src/redis/redis.service.ts:300-338 | a report that nothing interferes with is a run of the machine that leaves the same counters |
| TrafficServices.EntityFollows | apps/api/src/queues/processors/timeseries-aggregation.processor.ts:56-89 | draining one entity without interference is a run of the machine that moves the same bytes |
| TrafficServices.TrafficStore.AggregateClientTraffic | apps/api/src/queues/processors/timeseries-aggregation.processor.ts:130-174 | bucket and usage of each known client gain its drained bytes; bytes of unknown emails are dropped |
| TrafficBuffer.OneReaderAccounts | apps/api/src/redis/redis.service.ts:236-243 | in every run in which no two workers stand between LRANGE and DEL of the same buffer, however many are busy, every pushed byte is applied, waiting, removed unread, or read and dropped |
| TrafficBuffer.NeverOverCounts | apps/api/src/queues/processors/traffic-aggregation.processor.ts:44-94 | in all those runs with non-negative pushes, applied plus waiting bytes of a client never exceed the pushed ones |
| TrafficBuffer.CountsEverything | apps/api/src/queues/processors/traffic-aggregation.processor.ts:44-94 | they are equal when nodes and clients are known, no worker fails after its DEL and no push lands between LRANGE and DEL of its buffer |
| TrafficBuffer.TwoReadersDoubleCount | apps/api/src/redis/redis.service.ts:236-243 | two workers that both read a buffer before either deletes it apply the same byte twice |
| TrafficBuffer.SafeIffOneReader | apps/api/src/redis/redis.service.ts:236-243 | with at most n readers of any one buffer the route can never over-count if and only if n is at most one |
| TrafficBuffer.Usage.Aggregate | apps/api/src/queues/processors/traffic-aggregation.processor.ts:55-68 | the per-email map holds for every email the sum of its items; items without email are skipped |
| TrafficBuffer.Usage.ProcessNodeTraffic | apps/api/src/queues/processors/traffic-aggregation.processor.ts:44-94 | adding each aggregate once, in any order, leaves every usedBytes as adding item by item would |
| TrafficBuffer.Clients.Credit | apps/api/src/queues/processors/traffic-aggregation.processor.ts:81-94 | each aggregate is credited once, to one client of its email, of whichever tenant |
| TrafficBuffer.StaysInTenantIff | apps/api/src/queues/processors/traffic-aggregation.processor.ts:82-85 | whatever client the lookup by email answers, a tenant gains exactly the bytes reported for its emails and nobody else gains any, if and only if no client of another tenant has an email with reported bytes |
| ConfigPolling.NotModifiedIsRecent | apps/api/src/modules/agent/agent.service.ts:26-42 | "not modified" means the agent holds a configuration whose ETag the Panel stored less than 300 s ago, for an injective non-empty hash and every interleaving |
| ConfigPolling.StaleAtMost | apps/api/src/redis/redis.service.ts:152-158 | that configuration was current less than 300 s plus the longest build time ago |
| ConfigPolling.InvalidationHolds | apps/api/src/redis/redis.service.ts:168-171 | under that condition the next poll is answered afresh, every later "not modified" means the agent holds data current at the invalidation or after it, and without a change of the data exactly those |
| ConfigPolling.HalfBuiltAnswerDefeats | apps/api/src/modules/agent/agent.service.ts:32-41 | one answer with other data, built before the invalidation and cached and delivered after it, is confirmed as "not modified" |
| ConfigPolling.Panel.GetNodeConfig | apps/api/src/modules/agent/agent.service.ts:26-42 | "not modified" exactly for a live cached ETag equal to the sent one; otherwise a fresh configuration whose ETag is cached for 300 s |
| ConfigPolling.InvalidationHoldsIff | apps/api/src/redis/redis.service.ts:168-171 | whatever follows, no "not modified" after an invalidation stands for data replaced before it, if and only if no answer built and not yet cached holds other data than the current ones |
| ConfigPolling.AgentClient.GetConfig | apps/agent/internal/client/client.go:112-145 | the held ETag changes only with a configuration and is that of the returned one |
| ConfigPolling.AgentClient.PollAfterInvalidation | apps/agent/internal/client/client.go:112-145 | over any series of polls after the Panel drops its cached ETag, each poll gets the data of its time or keeps those of an earlier poll of the series less than 300 s old |
| ConfigPolling.UndisturbedPoll | apps/api/src/modules/agent/agent.service.ts:26-42 | the two services run the steps of the machine: an undisturbed poll leaves the cache and ETag that GetConfig leaves, and the agent with the current data or with what it held |
| ClientIndex.BatchEqualsSequential | apps/api/src/modules/client/client.service.ts:377-440 | for every client list and inbound set the batched sync leaves exactly the ordered lists that syncing client after client leaves |
| ClientIndex.UpsertTwice | apps/api/src/modules/client/client.service.ts:476-493 | upserting the same client again changes nothing, so a tag named twice does no harm |
| ClientIndex.UpsertKeys | apps/api/src/modules/client/client.service.ts:476-493 | an upsert keeps keys unique and lists exactly one more email at most: the upserted one |
| ClientIndex.WithoutKeys | apps/api/src/modules/client/client.service.ts:495-502 | a removal keeps keys unique and unlists exactly the removed email |
| ClientIndex.CreateInStep | apps/api/src/modules/client/client.service.ts:111-157 | creation keeps every list naming exactly the emails whose rows give the inbound's tag |
| ClientIndex.CreatedAccountsHaveNoPassword | apps/api/src/modules/client/client.service.ts:120-130 | because creation always sets a uuid, the account it makes in a socks or http inbound never has the password it was created with |
| ClientIndex.BulkCreateInStep | apps/api/src/modules/client/client.service.ts:162-236 | so does bulk creation, with duplicates skipped and rows read back in any order |
| ClientIndex.UpdateInStep | apps/api/src/modules/client/client.service.ts:271-316 | so does every update, whether it syncs, drops tags or does neither |
| ClientIndex.DeleteInStep | apps/api/src/modules/client/client.service.ts:318-327 | so does deletion |
| ClientIndex.IndexStaysInStep | apps/api/src/modules/client/client.service.ts:111-327 | from consistent key-unique lists, every run of create, bulkCreate, update and delete keeps "email is in an inbound's list iff a row of the tenant gives it the tag" and keeps keys unique, for both layouts |
| ClientCopies.UpsertEntries | apps/api/src/modules/client/client.service.ts:476-493 | upserting a client puts in its own entry, with its current credential, and leaves every other entry |
| ClientCopies.SyncReaches | apps/api/src/modules/client/client.service.ts:302-313 | an update that gives a non-empty uuid, password or flow, or an enable flag, or other tags, puts the new copy into every inbound of the tags and leaves the entries of other clients |
| ClientCopies.UpdateCurrentIff | apps/api/src/modules/client/client.service.ts:302-313 | an update leaves all copies current if and only if it is one of those or the copies of the row look the same |
| ClientCopies.SomeChangesGoStale | apps/api/src/modules/client/client.service.ts:307-307 | changing only the level, or clearing only the uuid, leaves stale copies |
| ClientCopies.CopiesStayCurrentIff | apps/api/src/modules/client/client.service.ts:111-327 | from current lists, a run of create, bulkCreate, update and delete keeps every copy current throughout if and only if each update is synced or changes no copy |
| ClientServices.Settings.UpsertClient | apps/api/src/modules/client/client.service.ts:476-493 | replaces the first entry recognised by email or user, or appends |
| ClientServices.Settings.RemoveClient | apps/api/src/modules/client/client.service.ts:495-502 | keeps every entry not recognised by the email, in order |
| ClientServices.GroupByTag | apps/api/src/modules/client/client.service.ts:390-397 | the nested loops collect for each tag its clients in order, as often as they name it |
| ClientServices.ClientService.SyncClientToInbounds | apps/api/src/modules/client/client.service.ts:332-372 | upserts the client into every inbound of its tags and drops the cache of exactly their nodes |
| ClientServices.ClientService.BatchSyncClientsToInbounds | apps/api/src/modules/client/client.service.ts:377-440 | leaves what the sequential sync leaves and drops the cache of every node whose inbound changed |
| ClientServices.ClientService.RemoveClientFromInbounds | apps/api/src/modules/client/client.service.ts:445-474 | removes the email from every inbound of the tags and drops the cache of exactly their nodes |
| ClientServices.ClientService.Create | apps/api/src/modules/client/client.service.ts:111-157 | refuses a taken email without effect; otherwise the row has the given or the fresh uuid, every inbound of its tags holds its copy, rows and copies are in step and current, and every node with a changed list has its cache dropped |
| ClientServices.ClientService.BulkCreate | apps/api/src/modules/client/client.service.ts:211-236 | inserts, reads back and syncs; rows and copies are in step and current, changed nodes invalidated |
| ClientServices.ClientService.Update | apps/api/src/modules/client/client.service.ts:271-316 | every given field is set and no other; new credentials reach every inbound of the tags and drop the caches of their nodes; rows and copies stay in step, and stay current exactly under the stated condition |
| ClientServices.ClientService.Delete | apps/api/src/modules/client/client.service.ts:318-327 | clears the lists, then the row; rows and copies are in step and current, changed nodes invalidated |
| NodeHealth.OnlineIsEarned | apps/api/src/queues/processors/node-health-check.processor.ts:101-108 | under arbitrary expiry, foreign status writes and stale status reads, a node is marked online only if the latest healthyThreshold checks were all healthy |
| NodeHealth.OfflineIsEarned | apps/api/src/queues/processors/node-health-check.processor.ts:91-98 | if checks see the current status and others take a node out of offline only with a clean counter, it is marked offline only if the latest unhealthyThreshold checks were all unhealthy |
| NodeHealth.NextMarkIsEarnedIff | apps/api/src/queues/processors/node-health-check.processor.ts:91-98 | for an online node the next offline mark is earned under every threshold if and only if the counter holds no more than the current row of bad checks |
| NodeHealth.ReportDefeatsHysteresis | apps/api/src/modules/agent/agent.service.ts:259-282 | a status report that forces a recovering node online lets a single failed check take it offline under a threshold of three |
| NodeHealth.ExactHysteresis | apps/api/src/queues/processors/node-health-check.processor.ts:86-113 | while checks see the current status, nothing expires and nobody else writes it: a node goes offline with the check that completes unhealthyThreshold bad ones in a row, comes back with the check that completes healthyThreshold good ones, and changes at no other check |
| NodeHealth.HealthProcessor.CheckNodeHealth | apps/api/src/queues/processors/node-health-check.processor.ts:86-113 | sets counters and status of its node as its verdict, the status seen, the old counters and the two thresholds say: at the threshold online with both counters cleared, below it the status stays; no other node changes |
| NodeHealth.HealthProcessor.Process | apps/api/src/queues/processors/node-health-check.processor.ts:44-70 | a whole job takes every node through exactly the checks of its enabled groups, then marks silent ungrouped nodes offline |
| NodeHealth.JobMeaning | apps/api/src/queues/processors/node-health-check.processor.ts:44-70 | a node in no enabled group goes through no check and only goes offline if it was silent and online; a checked node is left to its checks |
| Turns.FairShare | apps/api/src/modules/node-group/node-selector.service.ts:303-308 | from any starting counter, m consecutive turns modulo n visit every place the floor or the ceiling of m/n times |
| NodeSelector.CandidateIff | apps/api/src/modules/node-group/node-selector.service.ts:104-122 | a node passes the chain of filters exactly when it meets health, exclusion, slot and threshold conditions; no node is duplicated |
| NodeSelector.SomeCandidateIff | apps/api/src/modules/node-group/node-selector.service.ts:124-124 | there is a candidate exactly when some node of the group is acceptable |
| NodeSelector.Least | apps/api/src/modules/node-group/node-selector.service.ts:319-323 | a least-* reduction picks a node no other scores below, and the first of several such |
| NodeSelector.RoundRobinIsFair | apps/api/src/modules/node-group/node-selector.service.ts:303-308 | over fixed nodes and an unexpired counter, m consecutive selections return each acceptable node the floor or ceiling of its share |
| NodeSelector.NodeSelectorService.GetNodesLoadStats | apps/api/src/modules/node-group/node-selector.service.ts:224-266 | one statistics record per node, in order |
| NodeSelector.DrawnPlaceIff | apps/api/src/modules/node-group/node-selector.service.ts:310-312 | every candidate is drawn by an equal share of the random numbers |
| NodeSelector.NodeSelectorService.SelectNode | apps/api/src/modules/node-group/node-selector.service.ts:93-146 | the answer is an acceptable node of the group chosen by its strategy, null exactly if there is none; under a least or weighted strategy no acceptable node costs less by the cost of that strategy; only a round-robin answer moves the counter |
| NodeSelector.NodeSelectorService.SelectRepeatedly | apps/api/src/modules/node-group/node-selector.service.ts:303-308 | m calls in a row return each acceptable node the floor or ceiling of its share, whatever the counter was |
| BatchSpread.AdvanceIsNextPlace | apps/api/src/plugins/gosea/services/batch-socks5.service.ts:78-79 | the wrapping port counter stands at the port of the next entry |
| BatchSpread.PortsInRangeIff | apps/api/src/plugins/gosea/services/batch-socks5.service.ts:78-79 | every port lies in the range if and only if min <= max; otherwise all are min |
| BatchSpread.SharePortIff | apps/api/src/plugins/gosea/services/batch-socks5.service.ts:78-79 | two entries share a port exactly when their numbers differ by a multiple of the range size |
| BatchSpread.PortsAreShared | apps/api/src/plugins/gosea/services/batch-relay.service.ts:54-55 | every port of the range gets the floor or ceiling of its share |
| BatchSpread.ShareIpIff | apps/api/src/plugins/gosea/services/batch-socks5.service.ts:69-69 | entries share an egress IP exactly when their numbers differ by a multiple of the number of IPs, if and only if no IP is listed twice |
| BatchSpread.IpsAreShared | apps/api/src/plugins/gosea/services/batch-socks5.service.ts:69-69 | every egress IP gets the floor or ceiling of its share |
| BatchSpread.GroupsPartition | apps/api/src/plugins/gosea/services/batch-socks5.service.ts:105-114 | the port groups, one after the other, hold every entry exactly once |
| BatchServices.GenerateSocks5 | apps/api/src/plugins/gosea/services/batch-socks5.service.ts:32-101 | the three refusals exactly when the source refuses; otherwise entry i has the egress IP, host and port its number gives |
| BatchServices.EgressIpsFrom | apps/api/src/plugins/gosea/services/batch-socks5.service.ts:45-51 | the request goes before the settings of the node, those before its active addresses, those before its public address; an empty list in the request hides only the settings |
| BatchServices.ModeFrom | apps/api/src/plugins/gosea/services/batch-socks5.service.ts:42-42 | one port, given or 1080, or the range of the request, of the node, or 10000 to 60000 |
| BatchServices.HostFrom | apps/api/src/plugins/gosea/services/batch-socks5.service.ts:64-70 | the host is the egress address if asked for, else the public address, else unknown |
| BatchServices.GroupByPort | apps/api/src/plugins/gosea/services/batch-socks5.service.ts:105-109 | groups in the order of first use, each with its entries in order |
| Labels.UsernameNumber | apps/api/src/plugins/gosea/services/batch-socks5.service.ts:27-30 | within a batch no user name occurs twice, whatever the addresses are |
| Labels.LastPartMeaning | apps/api/src/plugins/gosea/services/batch-socks5.service.ts:27-30 | a user name ends in the part of the address after its last dot |
| Labels.DashedMeaning | apps/api/src/plugins/gosea/services/batch-socks5.service.ts:132-132 | tags turn every dot of an address into a dash and nothing else |
| Labels.NamesLookLike | apps/api/src/plugins/gosea/services/batch-socks5.service.ts:27-30 | the fixed parts of user names, emails and tags |
| BatchRows.ClientsLeft | apps/api/src/plugins/gosea/services/batch-socks5.service.ts:114-166 | whether a batch ends or breaks off, exactly the clients of the statements that went through have been added |
| BatchRows.AllDoneIff | apps/api/src/plugins/gosea/services/batch-socks5.service.ts:114-166 | a batch comes to its end if and only if nothing stands in the way of any of its steps and it names no email twice |
| BatchServices.SocksDoneIff | apps/api/prisma/schema.prisma:440-440 | all generated entries become clients if and only if no entry has an email taken in the tenant and no port held by an inbound with another tag |
| BatchServices.SocksClients | apps/api/src/plugins/gosea/services/batch-socks5.service.ts:134-156 | then every entry has become exactly one client, under the inbound tag of its port and the outbound tag of its address, and no other client has changed |
| BatchRows.InboundsLeft | apps/api/src/plugins/gosea/services/batch-socks5.service.ts:114-121 | whether a batch ends or breaks off, inbounds that were there are untouched, and a new one listens on the port of the first completed statement with its tag |
| BatchRows.OutboundsLeft | apps/api/src/plugins/gosea/services/batch-socks5.service.ts:134-146 | outbounds that were there are untouched whatever they lead to, and a new one leads where the first statement tried with its tag leads |
| BatchRows.BatchLeadIff | apps/api/src/plugins/gosea/services/batch-socks5.service.ts:114-156 | after a batch that went through, every client comes in on its own port and goes out to its own target if and only if the rows found under its tags were such rows and no two entries share an outbound tag with different targets |
| BatchServices.SocksLeadIff | apps/api/src/plugins/gosea/services/batch-socks5.service.ts:114-156 | for socks batches: the rows found have the port and the address, and no two addresses of the batch share a tag |
| BatchServices.DottedSocksLeadIff | apps/api/src/plugins/gosea/services/batch-socks5.service.ts:134-146 | addresses without a dash never share a tag, so for them only the rows found matter |
| BatchServices.SecondBatchFails | apps/api/src/plugins/gosea/services/batch-socks5.service.ts:62-71 | user names start over with every batch, so a batch whose first address ends like that of an earlier one breaks off at its first client, leaving at most an inbound and an outbound |
| BatchServices.RepeatedBatchFails | apps/api/src/plugins/gosea/services/batch-socks5.service.ts:62-71 | repeating any request that went through creates nothing at all |
| BatchServices.OnlyOnce | apps/api/src/plugins/gosea/services/batch-socks5.service.ts:62-71 | on a node without inbounds every request whose user names are new to the tenant goes through once and only once |
| BatchServices.BatchSocks5Service.CreateResources | apps/api/src/plugins/gosea/services/batch-socks5.service.ts:103-170 | runs the steps of the batch in the order of the port groups up to the first failure, and drops the cached configuration only if all went through |
| BatchServices.GenerateRelay | apps/api/src/plugins/gosea/services/batch-relay.service.ts:36-72 | entry i stands for proxy i on the port its number gives |
| BatchServices.RelayModeFrom | apps/api/src/plugins/gosea/services/batch-relay.service.ts:36-56 | a shared port, given or 443, or the range of the request, of the node, or 10000 to 60000 |
| BatchServices.RelayDoneIff | apps/api/src/plugins/gosea/services/batch-relay.service.ts:91-143 | all relay items become clients if and only if their ports and emails are free and no two uuids begin with the same eight characters |
| BatchServices.RelayClients | apps/api/src/plugins/gosea/services/batch-relay.service.ts:91-143 | then exactly one client per item has been added, and no other has changed |
| BatchServices.RelayLeadIff | apps/api/src/plugins/gosea/services/batch-relay.service.ts:103-136 | then every client goes out through the very proxy and account it was generated for, from the port of its item, if and only if the rows found under its tags are right and no two proxies of the request share an outbound tag but not the account |
| BatchServices.OneGatewayTwoAccounts | apps/api/src/plugins/gosea/dto/batch-generate.dto.ts:69-88 | a request that names one gateway under two accounts goes through on an empty node, and some client goes out under the other account |
| BatchServices.RelayAfterSocksFails | apps/api/prisma/schema.prisma:259-259 | a relay batch cannot use a port that a socks batch of the node has opened |
| BatchServices.BatchRelayService.CreateResources | apps/api/src/plugins/gosea/services/batch-relay.service.ts:83-147 | runs the steps of the relay batch up to the first failure, and drops the cached configuration only if all went through |

## Left out

- HTTP, gRPC, retries, process control and file writes: a call is one atomic success or failure. Collecting traffic before a restart is not part of this model.
- Prisma and Redis internals: tables are maps, each Redis command is one atomic step, `LRANGE` and `DEL` are two.
- The web front end, controllers, guards, DTO validation and login.
- Relay rows, links and default ports of orders; names and parent codes of location nodes; order numbers and expiry dates.
- `instance.service.ts`: it writes a status outside the allocator's set into pool rows, so allocator runs exclude it.
- The configuration-version lifecycle, validators, stream-settings builders, subscription printers, DNS adapters.
- Locations.Credit: tree nodes are values that the walk rebuilds, so aliasing between the continent map and the tree is not captured.
- Generator.Built: stream settings, sniffing, listen address and port are left out, as they are copied unchanged; settings that are missing are settings without entries.
- GeneratorServices.Generate: log, policy, stats and DNS sections are left out, and of a routing object only its rules are modelled.
- HotSync.HotSyncUsers: claims membership only; a changed credential under an unchanged email is not pushed by the code, and the model does not hold credentials of running inbounds.
- Agent.NobodyUnlistedIsServed: ticks and kicks are atomic; the API inbound is left out of the core's table. On http inbounds with accounts of their own the claim is false, as the counterexample shows.
- TrafficCounters.LedgerIsExact: a single client counter is not traced, because clients are stored under their row id and not their email; all client counters together are.
- TrafficServices.TrafficStore.AggregateClientTraffic: usedBytes is kept here and not in the interleaving machine, since both routes increment it; each route has its own ledger.
- TrafficBuffer.Usage.ProcessNodeTraffic: the per-inbound client statistics rows, the online-user lists and bandwidth samples are left out; batches that fail to parse are failures of the worker.
- TrafficBuffer.Clients.Credit: the counter route looks clients up in the same way, but its counters are keyed by email, so bytes of equal emails are already merged across tenants before the lookup.
- ConfigPolling.NotModifiedIsRecent: assumes an injective, non-empty hash; the users ETag is the same protocol on another key and is not repeated.
- ClientIndex.IndexStaysInStep: each operation is atomic and the set of inbounds is fixed; a crash between the row write and the sync is not modelled, nor are contents of entries after updates that do not sync.
- ClientIndex.BulkCreate: generated emails and uuids are parameters; settings that do not parse are left out.
- NodeHealth.OnlineIsEarned: the verdict of a check (heartbeat age, cpu, memory, slots) is an input of the model, and a check is atomic.
- NodeHealth.OfflineIsEarned: assumes current status reads and clean exits from offline; without them it is false, as the counterexample shows.
- NodeSelector.NodeSelectorService.SelectNode: loads are real numbers instead of floating point; geo-nearest and unknown strategies fall back to the random draw, as in the code.
- NodeSelector.RoundRobinIsFair: fixed candidates and no counter expiry.
- BatchServices.BatchSocks5Service.CreateResources: passwords, URLs and routing rules are left out, whose tags take eight hex digits of a fresh client id that are assumed not to collide.
- BatchServices.BatchRelayService.CreateResources: inbound settings per protocol, links and routing rules are left out; preview items are values, and the lookup by identity finds the first equal one.
