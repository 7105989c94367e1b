# Edge caching simulator: a verified model of its caching engine

This project models the caching engine of a discrete-event simulator of edge caching. Mobile users send requests for provider data. Each request goes to the cache worker of the nearest edge node. The worker resolves it through four tiers, in order:

1. the node's own byte-bounded cache;
2. the caches named by cooperative caching orders;
3. the nearest neighbour caches;
4. the provider itself.

The model also covers the helpers that feed the engine:

- the simulation event queue;
- the grid of square subareas the workload is drawn on;
- the per-user cursor over the recorded request trace.

Times, sizes and positions are integers. Every random or measured quantity is a parameter of the operation that uses it:

- the LAN latency draws are a sequence `ethernet`, consumed in order;
- the provider's (response time, response bytes) profile draw is `sample`;
- the WAN latency draw is `cloudLatency`;
- the trace file is replaced by the sequence of records it yields.

Modules, one per source file:

| module | file | models |
|---|---|---|
| `Caches` | `cache.dfy` | the cache store: insertion with evict-and-retry, LRU and LFU eviction, lookup, expiry sweep, hit rate |
| `CacheWorkers` | `cache_worker.dfy` | the four-tier request resolver, neighbour selection, cooperative-order filtering, counters |
| `LfuAsWritten` | `lfu_as_written.dfy` | the LFU victim choice exactly as written, next to the corrected one in `Caches` |
| `SimulationQueues` | `simulation_queue.dfy` | the event queue: append, remove first occurrence, stable sort by due time, reset |
| `Areas` | `areas.dfy` | `divide_square_area` and `find_subarea` |
| `TimeTraceLoaders` | `time_trace_loader.dfy` | the interval rule, the round-robin split, the per-user cursor |
| `Users` | `users.dfy` | the nearest-worker scans and the pending-request list |
| `Sorting` | `sorting.dfy` | a stable insertion sort by an integer key (Python's `list.sort(key=...)`) |
| `Resources`, `CachingOrders`, `EdgeNodes`, `Requests`, `Geometry` | | the records and the squared distance |
| `Wrappers`, `Arithmetic` | | `Option`/`Result`, and small facts about multiplication and division |

Design choices:

- A cache, a worker, a request, a user, the event queue and the trace loader are classes. Their lists are `seq` fields that the methods reassign.
- Resources, caching orders, queue elements, areas and trace entries are datatypes.
- An edge node is a datatype that holds a reference to its `Cache`.
- Each state-changing method is tied, in its `ensures`, to a specification function of the old state. Examples:
  - `AddOutcome` for insertion;
  - `EvictLru` and `EvictLfu` for eviction;
  - `Unexpired` for the expiry sweep;
  - `Lookup` for a cache lookup;
  - `Served` for a whole request.
  The properties the source promises are then proved about those functions.
- LRU eviction sorts on `last_time_retrieved`, which is `None` for a resource never retrieved. Python cannot order `None` against an integer. The model gives "never retrieved" the key -1, below every time (`Caches.LruKey`).
- Provider ids are not assumed unique in a cache. Insertion never checks for duplicates, and a lookup takes the first match.
- A request's resolution is specified over the caches it may consult, in order (`CacheWorker.Probes`):
  - the local cache;
  - the cooperator cache of each matching cooperative order;
  - the ordered neighbours.

  The same cache may appear more than once in that list. `Effect` says what the probing does to each cache, counting its occurrences.

## Model

| member | source | states |
|---|---|---|
| `Resources.NewResource` | models/resource.py:1-8 | a new resource has frequency 0 and no retrieval time, with the given id, size, storage and expiration times |
| `CachingOrders.NewCachingOrder` | models/caching_order.py:29-38 | a new order is STANDARD, not a cooperator pointer, without cooperator node or request time, with the given worker, provider and times |
| `Requests.Request.constructor` | models/request.py:6-12 | a new request has no resource and zero latency |
| `Geometry.SquaredDistance` | shared/helper.py:3-17 | the squared Euclidean distance is 0 exactly when the points coincide |
| `Geometry.SquaredDistanceSymmetric` | shared/helper.py:14-16 | the distance from p to q equals the distance from q to p |
| `Sorting.FirstMinIndex` | models/cache.py:56-58 | the index of a least key, the first one in list order among equal keys |
| `Sorting.SortBy` | models/simulation_queue.py:57-61 | the sort returns a permutation of its input, non-decreasing in the key |
| `Sorting.SortByStable` | models/simulation_queue.py:61 | elements with equal keys keep their relative order |
| `Sorting.SortByIdempotent` | models/simulation_queue.py:61 | sorting a sorted list again changes nothing |
| `Sorting.SortByHead` | models/cache.py:56-58 | the head of the sorted list is the first element of least key |
| `Caches.SumSizesPermutation` | models/cache.py:56 | reordering the stored resources keeps their byte total |
| `Caches.SumSizesRemoveAt` | models/cache.py:58-59 | removing one resource takes exactly its size off the byte total |
| `Caches.LruEviction` | models/cache.py:51-62 | LRU evicts the first resource of least retrieval time; the rest stay, sorted by retrieval time; the byte total drops by the victim's size; the miss counter grows by 1 exactly when the victim was never retrieved |
| `Caches.LruEvictedBytes` | models/cache.py:56-59 | after the sort, dropping the head takes exactly the head's size off the byte total |
| `Caches.LfuVictim` | models/cache.py:66-84 | the victim has the least frequency; among least-frequent resources it has the earliest storage time, and it is the first of those on ties |
| `Caches.FindLfuVictim` | models/cache.py:72-84 | the two scans (minimum frequency, then earliest storage time among the least frequent) find exactly `LfuVictim` |
| `Caches.LfuEviction` | models/cache.py:86-92 | LFU removes the victim and keeps the rest in order; the byte total drops by its size; the miss counter grows by 1 exactly when its frequency is 0 |
| `Caches.Evict` | models/cache.py:36-41 | on a non-empty cache one eviction removes exactly one resource; on an empty one it changes nothing |
| `Caches.EvictShrinks` | models/cache.py:35-41 | an eviction removes only resources that were stored and never lowers the miss counter |
| `Caches.AddOutcomeImmediate` | models/cache.py:24-34 | a resource that fits is appended with nothing evicted; one larger than the whole cache leaves the list and the counters unchanged |
| `Caches.AddOutcomeStores` | models/cache.py:35-41 | evict-and-retry of a resource no larger than the cache ends with it stored last, after only stored resources, with the byte total within capacity |
| `Caches.EvictionStep` | models/cache.py:35-41 | each retry runs on a strictly shorter list, so the recursion ends |
| `Caches.Stamped` | models/cache.py:21-22 | a given insertion time becomes the storage time; no time given leaves the resource as it is; no other field changes |
| `Caches.FindProvider` | models/cache.py:104-105 | the position of the first resource of the provider, or none when no resource has that id |
| `Caches.Retrieved` | models/cache.py:108-109 | a retrieval adds 1 to the frequency and records the retrieval time, keeping every other field |
| `Caches.UnexpiredSpec` | models/cache.py:96-100 | the sweep keeps exactly the resources whose expiration time is not before now, and no more bytes than before |
| `Caches.UnexpiredCompose` | models/cache.py:96-100 | sweeping at t1 and then at a later t2 equals sweeping once at t2 |
| `Caches.Cache.constructor` | models/cache.py:10-18 | a new cache is empty, with byte counter and every counter at 0 |
| `Caches.Cache.AddResource` | models/cache.py:20-44 | the list and the miss counter become the insertion outcome of the stamped resource; the byte counter stays the total of stored sizes and within capacity; the lookup counters do not change |
| `Caches.Cache.ApplyLruStrategy` | models/cache.py:51-62 | the list and the miss counter become the LRU eviction outcome (nothing on an empty cache); the byte counter stays the total of stored sizes |
| `Caches.Cache.ApplyLfuStrategy` | models/cache.py:66-94 | the list and the miss counter become the LFU eviction outcome (nothing on an empty cache); the byte counter stays the total of stored sizes |
| `Caches.Cache.RemoveExpiredResources` | models/cache.py:96-100 | the list becomes the unexpired resources in order; the byte counter is recomputed to their total; no counter changes |
| `Caches.Cache.GetResource` | models/cache.py:102-114 | every lookup counts a request; the first match is retrieved, returned and counted as a hit; with no match nothing else changes and nothing is returned |
| `Caches.Cache.GetCacheHitRate` | models/cache.py:116-119 | the hit rate is 1 before any request, otherwise hits divided by requests, and lies in [0, 1] |
| `Caches.Cache.EpochPassed` | models/cache.py:126-128 | an epoch is the expiry sweep at the given time |
| `LfuAsWritten.MinFrequency` | models/cache.py:72 | the least frequency in the cache, attained by some resource |
| `LfuAsWritten.ScanFindsVictim` | models/cache.py:79-84 | when ids pick out exactly the least-frequent resources, the scan finds the first of earliest storage time among them |
| `LfuAsWritten.AsWrittenAgreesWhenIdsDistinct` | models/cache.py:72-84 | with distinct provider ids the victim as written is the corrected `LfuVictim` |
| `LfuAsWritten.AsWrittenEvictsFrequentlyUsed` | models/cache.py:75-84 | with two resources of the same provider, the victim as written is the one retrieved 5 times, not the one never retrieved |
| `CacheWorkers.Distinct` | models/cache_worker.py:38-46 | the dictionary keys: every node of the input, none twice, nothing else |
| `CacheWorkers.NoRepeatsPermutation` | models/cache_worker.py:45-46 | sorting a list without repeats gives a list without repeats |
| `CacheWorkers.GetOrderedCacheNodesByDistance` | models/cache_worker.py:35-48 | no neighbours when the count is not positive; otherwise `count - 1` of them, or all distinct nodes when there are fewer |
| `CacheWorkers.OrderedCacheNodesSpec` | models/cache_worker.py:35-48 | the neighbours are input nodes, none twice, nearest first, and no node left out is nearer than one chosen |
| `CacheWorkers.NonStandardSelects` | models/cache_worker.py:50-55 | an order is kept exactly when it is in the input and is not STANDARD |
| `CacheWorkers.NonStandardConcat` | models/cache_worker.py:50-55 | filtering two batches is filtering each, in order |
| `CacheWorkers.SweepSelects` | models/cache_worker.py:57-59 | an order survives the sweep exactly when it is in the list and its expiration time is at or before now |
| `CacheWorkers.KeptBySweepConcat` | models/cache_worker.py:57-59 | the sweep keeps the order of the list |
| `CacheWorkers.SweepKeepsExpired` | models/cache_worker.py:57-59 | a list of expired orders survives a sweep whole |
| `CacheWorkers.SweepMonotone` | models/cache_worker.py:57-59 | a second sweep at a later time keeps everything the first one kept |
| `CacheWorkers.CooperatorCachesConcat` | models/cache_worker.py:69-75 | the caches the cooperative tier consults for two runs of orders are those of each, in order |
| `CacheWorkers.CooperatorIndex` | models/cache_worker.py:69-75 | a matching order's cooperator is consulted after exactly the cooperators of the matching orders before it |
| `CacheWorkers.FirstHolderSpec` | models/cache_worker.py:63-80 | the caches before the first holder all miss the provider; the first holder has it |
| `CacheWorkers.DrawsSplit` | models/cache_worker.py:69-100 | consecutive runs of LAN draws add up |
| `CacheWorkers.StageServed` | models/cache_worker.py:63-80 | a tier that found the resource ends the request with the first holder's answer |
| `CacheWorkers.LateFetchExpires` | models/cache_worker.py:116-117 | a resource fetched after 1,000,000 ms is stored already expired, and the next sweep of its cache drops it |
| `CacheWorkers.FetchAsWrittenSwaps` | models/cache_worker.py:113-119 | as written, a 4096-byte, 250 ms response is stored as 250 bytes and charged 4096 ms |
| `CacheWorkers.CacheWorker.constructor` | models/cache_worker.py:15-21 | a new worker has no cooperative orders, zero counters and the ordered neighbours of its node |
| `CacheWorkers.CacheWorker.ProbesLaidOut` | models/cache_worker.py:63-100 | the caches a request consults are the local cache, then the cooperators of the matching orders, then the ordered neighbours |
| `CacheWorkers.CacheWorker.AddCachingOrders` | models/cache_worker.py:50-55 | exactly the non-STANDARD orders are appended, in input order; the counters do not change |
| `CacheWorkers.CacheWorker.RemoveExpiredCooperativeOrders` | models/cache_worker.py:57-59 | the cooperative orders become those the sweep keeps, in order |
| `CacheWorkers.CacheWorker.IsResource` | models/cache_worker.py:88-92 | a found resource is reported and counted as a cached request; a missing one changes nothing |
| `CacheWorkers.CacheWorker.GetFromCacheNode` | models/cache_worker.py:110-111 | one probe answers exactly when it is the first cache holding the provider, and moves the request to the next stage |
| `CacheWorkers.CacheWorker.CheckCooperativeOrders` | models/cache_worker.py:69-75 | the cooperators of matching orders are tried in order, one LAN draw each, stopping at the first that holds the provider |
| `CacheWorkers.CacheWorker.CheckNeighborNodes` | models/cache_worker.py:94-100 | the neighbours are tried in order, one LAN draw each, stopping at the first that holds the provider; all are tried when none does |
| `CacheWorkers.CacheWorker.PerformRequest` | models/cache_worker.py:113-120 | the request gets a fresh resource of the drawn byte size, stored now, whose expiration time is the absolute time 1,000,000 ms; its latency grows by the drawn response time plus the WAN draw |
| `CacheWorkers.CacheWorker.StoreData` | models/cache_worker.py:102-104 | the fetched resource is inserted into the local cache under its insertion rule; no other cache changes |
| `CacheWorkers.CacheWorker.RequestData` | models/cache_worker.py:61-86 | one more request is counted; a cached request is counted exactly when some consulted cache holds the provider; the first holder answers and later caches are untouched; the latency grows by one LAN draw per cache tried beyond the local one, plus the provider's time and the WAN draw on a full miss; on a full miss the local cache stores the fetched resource under classical caching |
| `CacheWorkers.CacheWorker.ServeRequest` | models/cache_worker.py:63-86 | from the local cache on, the request ends as `Served` says, with the counters and latency above |
| `CacheWorkers.CacheWorker.ServeBeyondLocal` | models/cache_worker.py:69-86 | after a local miss, the cooperators, then the neighbours, then the provider |
| `CacheWorkers.CacheWorker.ServeBeyondCooperators` | models/cache_worker.py:77-86 | after the cooperators missed, the neighbours, then the provider |
| `CacheWorkers.CacheWorker.EpochPassed` | models/cache_worker.py:122-125 | the cooperative orders are swept and the local cache drops its expired resources; no counter changes |
| `CacheWorkers.CacheWorker.GetCacheHitRate` | models/cache_worker.py:127-130 | the rate is 1 before any request, otherwise cached over total requests, and lies in [0, 1] |
| `SimulationQueues.FirstIndexOf` | models/simulation_queue.py:55 | the position of the first occurrence of the element |
| `SimulationQueues.RemoveFirstSpec` | models/simulation_queue.py:46-55 | removal takes out exactly one occurrence, the first: the elements before it stay, those after it move down by one |
| `SimulationQueues.SimulationQueue.constructor` | models/simulation_queue.py:27-28 | a new queue is empty |
| `SimulationQueues.SimulationQueue.AddElement` | models/simulation_queue.py:35-44 | the element is appended at the end and the earlier elements stay |
| `SimulationQueues.SimulationQueue.RemoveElement` | models/simulation_queue.py:46-55 | the queue loses the first occurrence of the element, which must be present |
| `SimulationQueues.SimulationQueue.SortQueue` | models/simulation_queue.py:57-61 | the queue becomes a permutation of itself, non-decreasing in due time, by the stable sort |
| `SimulationQueues.SimulationQueue.Reset` | models/simulation_queue.py:63-67 | the queue is empty |
| `SimulationQueues.SortQueueStableIdempotent` | models/simulation_queue.py:61 | elements due at the same time keep their enqueue order, and a second sort changes nothing |
| `Areas.IntSqrt` | models/request_generator.py:225 | the integer square root: its square is at most the input, the next square exceeds it |
| `Areas.Columns` | models/request_generator.py:225 | a grid of at least one portion has at least one column |
| `Areas.DivideSquareArea` | models/request_generator.py:213-234 | exactly `portions` subareas, ids 0 to `portions - 1` in order; subarea i sits at column i mod s and row i div s, of side `dimensions div s` |
| `Areas.FindSubarea` | models/request_generator.py:236-250 | a subarea found is in the list and its half-open box holds the point; none is found only when no box holds it |
| `Areas.FindSubareaFirst` | models/request_generator.py:247-249 | the subarea found is the first whose box holds the point |
| `Areas.CellOfPoint` | models/request_generator.py:228-233 | a point of the covered square lies in cell `(y div side) * s + x div side` and in no earlier cell |
| `Areas.GridLocate` | models/request_generator.py:225-250 | on a grid, `find_subarea` of a covered point returns the subarea with id `(y div side) * s + x div side` |
| `Areas.FirstCellAtOrigin` | tests/test_request_generator.py:17-28 | subarea 0 has id 0 and starts at the origin, with positive extent once the area is at least as wide as the grid has columns |
| `Areas.TenByFourGrid` | models/request_generator.py:225 | a 10 x 10 area in 4 parts has 2 columns of side 5 |
| `Areas.TenByFourLocate` | models/request_generator.py:225-250 | on that grid, a point is found in subarea `(y div 5) * 2 + x div 5` |
| `Areas.TenByTenInFour` | tests/test_request_generator.py:30-45 | a 10 x 10 area in 4 parts puts (1,2), (7,2), (3,9), (8,9) in subareas 0, 1, 2, 3 |
| `TimeTraceLoaders.Truncate` | models/time_trace_loader.py:24-30 | `int()` truncates toward zero: within 1 of the input, on the side of 0 |
| `TimeTraceLoaders.IntervalBounds` | models/time_trace_loader.py:24-30 | a recorded interval is never 0; on ordered timestamps it is at least 1 and within 1 of the difference; from 1 ms apart it is the whole milliseconds between them |
| `TimeTraceLoaders.BuildResponseTrace` | models/time_trace_loader.py:14-32 | the first line only seeds the last timestamp; each later line records the entry after its predecessor |
| `TimeTraceLoaders.DealStep` | models/time_trace_loader.py:68-70 | dealing item i adds one item to part i mod n, and that part held i div n items before |
| `TimeTraceLoaders.DealNext` | models/time_trace_loader.py:68-70 | appending item i to part i mod n extends a round-robin deal of the first i items to the first i + 1 |
| `TimeTraceLoaders.TotalLengthAppend` | models/time_trace_loader.py:70 | appending one item to one part adds 1 to the total length |
| `TimeTraceLoaders.FewerItemsThanParts` | models/time_trace_loader.py:64-65 | the part size is 0 exactly when there are fewer items than parts |
| `TimeTraceLoaders.ItemPlacement` | models/time_trace_loader.py:67-70 | in a round-robin deal, item i sits in part i mod n at position i div n |
| `TimeTraceLoaders.DivideListIntoParts` | models/time_trace_loader.py:60-72 | an error exactly when the part count is not positive or exceeds the items; otherwise `num_parts` parts dealt round-robin, holding all items, each of `len div n` or `len div n + 1` items |
| `TimeTraceLoaders.TimeTraceLoader.constructor` | models/time_trace_loader.py:9-33 | every cursor starts at 0; the parts are the response trace of the lines dealt round-robin among the users, each non-empty |
| `TimeTraceLoaders.TimeTraceLoader.Current` | models/time_trace_loader.py:45 | the entry under a user's cursor belongs to that user's part |
| `TimeTraceLoaders.TimeTraceLoader.GetTime` | models/time_trace_loader.py:44-47 | the interval under the cursor is returned; that cursor moves on modulo its part's length; no other cursor and no part changes |
| `TimeTraceLoaders.TimeTraceLoader.GetApplicationLatency` | models/time_trace_loader.py:49-51 | the latency of the entry under the cursor |
| `TimeTraceLoaders.TimeTraceLoader.GetSize` | models/time_trace_loader.py:53-55 | the size of the entry under the cursor |
| `TimeTraceLoaders.TimeTraceLoader.GetTraceLength` | models/time_trace_loader.py:57-58 | a part is longer than its cursor, so it is never empty |
| `Users.FirstNearestUnique` | models/user.py:117-125 | at most one index is the first nearest worker |
| `Users.User.constructor` | models/user.py:14-29 | a new user stands at its start position with no pending requests |
| `Users.User.CheckRequest` | models/user.py:37-38 | true exactly when a request is pending and the first one is due at the given time |
| `Users.User.GetRequest` | models/user.py:40-41 | the first pending request is returned and removed; the rest stay in order |
| `Users.User.ClosestCacheWorkerById` | models/user.py:112-125 | no index exactly when there are no workers; otherwise the first index of least distance to the current position |
| `Users.User.ClosestCacheWorkerByIndexInTime` | models/user.py:127-142 | the same answer: the time is not used, and `FirstNearestUnique` makes the first nearest index unique |
| `Users.User.ClosestCacheWorker` | models/user.py:108-110 | the worker at the first index of least distance |

## Left out

- Signature mismatches in the code are not reproduced. The model follows the intended data flow: look up by the request's id and pass the time through. The mismatches are:
  - `get_from_cache_node` gets the request object in place of its id (models/cache_worker.py:72), and both the request object and no time (models/cache_worker.py:96);
  - `perform_request` reads `request.provider` (models/cache_worker.py:114-115), which `Request` does not have (it stores `provider_type`), so as written it raises before any fetch; the model takes the provider's profile draw as the parameter `sample`;
  - `add_resource` gets three positional arguments (models/cache_worker.py:104); the model inserts the fetched resource itself;
  - `random_cloud()` gets no trace file (models/cache_worker.py:118);
  - `epoch_passed()` gets no time (models/cache_worker.py:125); the model passes the worker's time;
  - `CacheWorker` is built with three positional arguments (simulator.py:56);
  - `Request` is built with the wrong arity (models/request_generator.py:90).
- `_match` reads `order.request_id`, which `CachingOrder` does not have. `CacheWorkers.Match` compares the order's provider id with the request id.
- `check_request` reads `execution_time`, while `Request` stores `execution_timestamp`. The model has one field, `executionTime`.
- `remove_expired_cooperative_orders` keeps the orders whose expiration time is at or before now, which reads inverted. It is modelled as written, not corrected.
- Floating point is replaced by integers:
  - positions and distances, which the source keeps as `Decimal` and floats;
  - the square root of `calculate_distance`; squared distances order the same way;
  - `int(portions ** 0.5)`, whose float rounding can differ from `IntSqrt` for very large non-squares;
  - the hit rates, which are exact reals.
- Trace lines are real numbers. JSON parsing and the file read are left out: the constructor takes the lines.
- The `zero` / `not_zero` counters of the trace loader are never read, and are left out.
- Randomness and I/O are parameters or left out:
  - the profile sampler, the LAN and WAN latency samplers and their trace files;
  - user motion (`_move`, `_move_towards`, `get_closest_edge_node`, `epoch_passed`) and random categories and points;
  - workload generation;
  - the per-area popularity list;
  - every `print`.
- Metrics, statistics, the experiment drivers and the scripts are not part of this model.
- The `__new__` singletons of the queue and the trace loader are ordinary objects.
- `cache_manager.generate_caching_orders` is an empty stub: no order is ever generated, and nothing is modelled for it.
- `Cache.get_cache_miss_rate` reads an attribute that does not exist, and is left out.
- `Request.calculate_aoi` calls the storage time as a function, and is left out.
- `add_resource_per_description` is not called by the engine, and is left out.
- Queue removal compares elements by value, where Python's `list.remove` falls back to object identity for `QueueElement`. Two elements with equal fields but different identities are treated as one.
- The constant `DEFAULT_EXPIRATION_TIME` (1,000,000 ms) is stored as the absolute expiration time of every fetched resource (models/cache_worker.py:116-117), and the cache sweep keeps a resource only while the current time is at or before it (models/cache.py:98). So every resource fetched after 1,000,000 ms is already expired when stored, and the next sweep drops it (`CacheWorkers.LateFetchExpires`). The model keeps this behaviour.
- `Areas.DivideSquareArea`: requires at least one portion; with zero portions the source divides by zero, and with a negative count `int()` of the complex square root raises.
- `Users.User.GetRequest`: requires a pending request; on an empty list the source's `pop(0)` raises.
- `Users.User.ClosestCacheWorker`: requires at least one worker; on an empty list the source indexes with `None` and raises.
- `TimeTraceLoaders.TimeTraceLoader.constructor`: requires more trace lines than users, which is where the source raises; the error path of the split itself is modelled in `DivideListIntoParts`.
- `CacheWorkers.CacheWorker.RequestData`: requires every cooperative order that matches the request to name a cooperator edge node (`CooperatorsKnown`); an order without one makes the source read `cache` from `None` and raise. The LAN draws are a finite sequence long enough for one draw per cache consulted, rather than an endless sampler.

## Findings

| source | as written | input that shows it | evidently intended | confidence | as-written member | corrected member |
|---|---|---|---|---|---|---|
| models/cache.py:75-84 | the least-frequent resources are collected by provider id, so every resource sharing an id with one of them is a candidate | two resources of provider "p": one retrieved 5 times and stored at 0, one never retrieved and stored at 1 | evict among the least-frequent resources only: the earliest stored, the first on ties | not executed | `LfuAsWritten.AsWrittenEvictsFrequentlyUsed` | `Caches.LfuVictim` |
| models/cache_worker.py:114-119 | the profile draw, returned as (time, bytes), is unpacked as (size, application latency) | a response of 4096 bytes that took 250 ms is stored as 250 bytes and charged 4096 ms | the resource gets the byte count as its size, and the latency grows by the response time | not executed | `CacheWorkers.FetchAsWrittenSwaps` | `CacheWorkers.CacheWorker.PerformRequest` |
