# moqx in Dafny

A model of the stateful cores of moqx, a relay for Media over QUIC Transport
(draft-ietf-moq-transport), with proofs of what each core is for.

* **The object cache** (`Locations`, `IntervalSets`, `RangeAlgebra`, `MapTotals`, `Names`, `TrackModel`,
  `CacheTracks`, `GroupHolds`, `CacheInvariant`, `Eviction`, `CacheSteps`, `MoqxCaches`). A track keeps objects, known
  gaps and an index of both; the cache keeps byte totals, pin counts, two group LRUs and a track LRU. One invariant,
  `CacheInvariant.Inv`, ties them together, and every operation of the class `MoqxCaches.MoqxCache` keeps it, so it
  holds over every interleaving of writers, fetches, expiry, eviction and purge; eviction takes what was unused longest.
* **Fetching** (`FetchPlan`, `FetchGaps`, `FetchAgain`, `ChunkAssembly`). How a FETCH is split into cache hits, gaps
  and upstream requests; which gaps an upstream response proves, whenever its FETCH_OK arrives; that the two fit
  together, so that the same FETCH is not asked twice; and how chunks of one object from several writers come together.
* **Namespaces** (`HopPaths`, `Routes`, `NamespaceTrees`, `Advertisements`, `NamespaceRelays`). The pruned, counted tree
  behaves like a flat map from namespace to content; the relay that owns it tells each subscriber exactly the best
  route it may see, in a well-formed trace of NAMESPACE and NAMESPACE_DONE, and never loses an outstanding
  advertisement with a pruned node; and across a network of relays hop paths stay loop free and cost what their links
  add up to.
* **Rendezvous** (`Rendezvous`). The tree of parked SUBSCRIBEs refines a multiset of (track, waiter) pairs.
* **Codecs** (`SafeNames`, `AuthNames`). Printing and parsing of names, and the length-prefixed encoding of
  namespaces that authorization rules match against.

Objects that the source updates in place are classes here. Their methods are tied to functions on values (steps such
as `EvictGroupStep` or `WriteStep`), and the lemmas are about those functions.

What is assumed of code that is not part of this repository: locations are pairs of a group and an object, each up to
2^62 - 1, ordered lexicographically, and `next` and `prev` carry across groups. A `LocationIntervalSet` is a set of
locations kept as maximal closed intervals; `IntervalSets` builds one and proves that insertion, removal and the two
lookups mean what their names say. A cluster session always sends a HOP_PATH, and other sessions send neither HOP_PATH
nor ROUTE_COST. A fetch response comes in ascending order, nothing follows its end, and its FETCH_OK End Location lies
after all its objects. The clock, payload bytes and the outcome of upstream calls are parameters.

Some things one might expect of the code do not always hold. Each has its exact condition:

* `safeName` is documented as injective, but the empty namespace and the namespace of one empty tuple print alike, and
  these alone (`SafeNames.NamespaceRoundTrip`, `SafeNames.SafeNameInjective`).
* The namespace encoding decides the tuple prefixes of exactly the namespaces whose fields are all shorter than 2^32
  bytes (`AuthNames.PrefixesDecidedExactly`; `AuthNames.OversizedFieldCollides` is one that it confuses).
* A fetch response records a position that it delivered as a gap exactly when the object there was cut off, by another
  object or by the end of the response, before it was complete and stored
  (`FetchGaps.FetchWriteback.CutOffObjectsAreHanded`; `FetchGaps.CutOffByTheEnd` is such a response).
* The count of active children in the namespace tree is a bound; it stays exact exactly as long as no node that counts
  a child gets its first content (`NamespaceTrees.Mutate`, `NamespaceTrees.CountStaysExact`).

## Model

| member | source | states |
|---|---|---|
| RangeAlgebra.FetchIntervalsCoverExactly | src/MoqxCache.cpp:70-150 | In both group orders, the upstream intervals for a miss run are disjoint, cover exactly the positions passed from the miss to the hit, and come in the requested order. |
| RangeAlgebra.FetchIntervalsAreSeparate | src/MoqxCache.cpp:70-150 | None of these intervals is empty, and no two could be one. |
| RangeAlgebra.GapRangesCoverExactly | src/MoqxCache.cpp:169-238 | In both group orders, the gap ranges are disjoint and cover exactly the positions iteration passes from the cursor up to the target, none outside the fetch range. |
| TrackModel.EnforcedIsSound | src/MoqxCache.h:359-364 | The gap cap forgets only the lowest gaps, from both sets at once, and keeps the index sound. |
| TrackModel.WithGapIsSound | src/MoqxCache.h:345-349 | A new gap keeps the index sound and adds no position but its own; what the cap drops lies below what stays. |
| TrackModel.WithoutRangeIsSound | src/MoqxCache.h:352-357 | Forgetting a range keeps the index sound and leaves nothing of the range in it. |
| TrackModel.PriorGroupStepMeans | src/MoqxCache.cpp:528-575 | A Prior Group ID Gap marks exactly the groups it names, once per group; it is refused exactly when it is too large or one of the nearest groups holds an object. |
| TrackModel.PriorObjectStepMeans | src/MoqxCache.cpp:577-618 | A Prior Object ID Gap marks exactly the objects it names in its group, and is refused exactly when it is too large or covers a cached object among the nearest. |
| TrackModel.GroupConflictMeans | src/MoqxCache.cpp:557-569 | A conflict is a cached object in a named group, within the nearest hundred. |
| TrackModel.ObjectConflictMeans | src/MoqxCache.cpp:597-609 | A conflict is a cached object among the named ones, within the nearest hundred. |
| TrackModel.EndRangesMean | src/MoqxCache.cpp:309-323 | An end-of-group marker marks exactly the rest of its group, an end-of-track marker exactly everything after it. |
| TrackModel.StoreEntryGrows | src/MoqxCache.cpp:327-402 | A further copy never shrinks an entry and never changes a complete one's bytes. |
| TrackModel.CacheObjectMeans | src/MoqxCache.cpp:278-411 | A write is refused exactly in a known gap, for prior gaps that contradict what is cached or was said, or for a conflicting object; an accepted one stores exactly its own object and indexes it when it becomes complete. |
| TrackModel.CacheObjectSound | src/MoqxCache.cpp:278-411 | After any write, accepted or refused, each indexed location is a gap or a complete object, and the gap intervals are within the cap. |
| TrackModel.CacheObjectConsistent | src/MoqxCache.cpp:278-411 | After any write the group's byte total is the sum of its objects' sizes; it never falls, and a refused write leaves objects and total alone. |
| CacheTracks.UpdatedLargest | src/MoqxCache.cpp:450-474 | Refused exactly past a known end, or when an end lies before the largest location; otherwise the largest location is the maximum, and the end of the track is the largest location. |
| CacheTracks.FetchOkEndBounds | src/MoqxCache.cpp:476-498 | The FETCH_OK end lies between the start and the requested end and covers everything asked for up to the Largest Object; on a live or ended track nothing beyond it, on any other that has reached the start the whole range. It says end of track exactly when the range reaches a known end. |
| CacheTracks.CacheTrack.EnforceGapLimit | src/MoqxCache.h:359-364 | The loop performs the step that keeps the index sound. |
| CacheTracks.CacheTrack.InsertGap | src/MoqxCache.h:345-349 | Updates gaps and index together by the sound step. |
| CacheTracks.CacheTrack.ForgetRange | src/MoqxCache.h:352-357 | Updates gaps and index together by the sound step. |
| CacheTracks.CacheTrack.UpdateLargest | src/MoqxCache.cpp:450-474 | Changes the largest location and the end-of-track flag by the specified step, or reports its error. |
| CacheTracks.CacheTrack.ProcessPriorGroupGap | src/MoqxCache.cpp:528-575 | The bounded search loop finds a conflict exactly when there is one, and marks what the step marks. |
| CacheTracks.CacheTrack.ProcessPriorObjectGap | src/MoqxCache.cpp:577-618 | The bounded search loop finds a conflict exactly when there is one, and marks what the step marks. |
| CacheTracks.CacheTrack.CacheObject | src/MoqxCache.cpp:278-411 | Updates the group, gaps and index in place by the step proved sound and consistent. |
| CacheTracks.CacheTrack.InsertEndGaps | src/MoqxCache.cpp:309-323 | Inserts the gaps that an end marker proves. |
| CacheTracks.CacheTrack.StoreObject | src/MoqxCache.cpp:325-411 | The in-place branches for a first copy, a further copy, a refusal and completion change group and index as the specified step does. |
| CacheTracks.MergeCopy | src/MoqxCache.cpp:333-389 | Checks a further copy and extends the cached bytes branch by branch; the result is the specified entry, never a shorter one. |
| CacheTracks.CacheTrack.DropGroup | src/MoqxCache.cpp:2577-2591 | An evicted group takes with it what the index knew because of it, prior groups included. |
| GroupHolds.HeldIsPinned | src/MoqxCache.cpp:2436-2452 | A group with a holder has a positive pin count, so unpinning never underflows. |
| GroupHolds.PinKeepsOk | src/MoqxCache.cpp:2436-2440 | Pinning keeps: the pin count is the number of holders, and a group is in each LRU once if the count is 0 and in neither otherwise. |
| GroupHolds.UnpinKeepsOk | src/MoqxCache.cpp:2442-2452 | Unpinning keeps the same, returning the group with its last holder to both LRUs, which stay in the order of last creation or release, newest first. |
| GroupHolds.AddGroupKeepsOk | src/MoqxCache.cpp:2399-2420 | A new group enters both LRUs and keeps the same, and their order by age. |
| GroupHolds.RemoveGroupKeepsOk | src/MoqxCache.cpp:2422-2434 | Removing an unpinned group leaves no stale LRU entry. |
| GroupHolds.RemoveTrackKeepsOk | src/MoqxCache.cpp:2478-2505 | Removing a track leaves no LRU entry, pin or fetch of it behind. |
| GroupHolds.ListedEarlierIsNewer | src/MoqxCache.cpp:2399-2452 | On every such list, what stands nearer the front was created or released later. |
| GroupHolds.EnterFetchKeepsOk | src/MoqxCache.cpp:1328-1342 | A fetch that pins the group it writes keeps the counts and LRUs right. |
| CacheInvariant.EmptyCacheOk | src/MoqxCache.h:99-123 | The empty cache satisfies the invariant, under any limits. |
| CacheInvariant.BytesCovered | src/MoqxCache.cpp:2559-2593 | A group's bytes never exceed the cache total, so the subtraction checks cannot fail. |
| CacheInvariant.SetContentsKeepsInv | src/MoqxCache.cpp:2649-2688 | Changing a track's contents and the total by the same bytes keeps the invariant. |
| CacheInvariant.AddGroupStepKeepsInv | src/MoqxCache.cpp:508-521 | Opening a group keeps the invariant. |
| CacheInvariant.EvictGroupStepKeepsInv | src/MoqxCache.cpp:2559-2593 | Evicting a listed group, with its index range and bytes, keeps the invariant. |
| CacheInvariant.ForgottenMeans | src/MoqxCache.cpp:2577-2584 | After a group goes, nothing is known of it or of the groups that it said were skipped. |
| CacheInvariant.AddTrackStepKeepsInv | src/MoqxCache.cpp:1981-1988 | Creating a track keeps the invariant. |
| CacheInvariant.DropTrackStepKeepsInv | src/MoqxCache.cpp:2478-2505 | Dropping a track with its groups, bytes, pins and subscriptions keeps the invariant. |
| CacheInvariant.SetTrackLruKeepsInv | src/MoqxCache.cpp:2363-2393 | Adding an evictable track to the track LRU, or removing any, keeps the invariant. |
| CacheInvariant.SetLiveKeepsInv | src/MoqxCache.cpp:848-871 | The live count stays the number of open subscription writebacks. |
| Eviction.EvictListedKeepsInv | src/MoqxCache.cpp:2608-2637 | Evicting one LRU entry that is no join point removes exactly that entry, only spare groups go, and a track is dropped only when it is evictable. |
| Eviction.ByteEvictResult | src/MoqxCache.cpp:2595-2647 | The pass over the LRU ends at the target or with only join points left; no pinned group and no join point goes. What goes was unused longer than whatever else could have gone, and without the last victim the target would not be met. |
| Eviction.EvictForBytesResult | src/MoqxCache.cpp:2595-2647 | Within the limit nothing is evicted; over it the pass ends at the limit less the eviction slack, or with every remaining LRU entry a live track's join point; it takes the longest unused and no more than needed, and a live track keeps the group of its Largest Object. |
| Eviction.JoinPointIsLiveEdge | src/MoqxCache.h:328-335 | A join point is exactly the group of the Largest Object of a published track. |
| Eviction.GroupEvictResult | src/MoqxCache.cpp:2535-2557 | Group eviction ends within the per-track limit or with every group pinned, takes groups of that track only, those unused longest, and stops at the limit. |
| CacheSteps.AfterWriteContents | src/MoqxCache.cpp:2649-2688 | A write changes the track's bytes by exactly what it changes its group's, and a failed one by nothing. |
| CacheSteps.WithoutObjectContents | src/MoqxCache.cpp:1813-1826 | Expiry removes an object from the group, the index and the byte count together. |
| CacheSteps.FreshExactly | src/MoqxCache.cpp:1813-1831 | An object is served while it is complete and no older than the track's own limit, or the default where the track has none. |
| CacheSteps.TrackLookupContents | src/MoqxCache.cpp:1798-1834 | A lookup hits exactly a complete unexpired object, keeps the track consistent and accounts for what expired; after a miss only a gap can still be indexed there, so a fetch cannot stall. |
| MoqxCaches.WriteStepResult | src/MoqxCache.cpp:2649-2688 | A write and the eviction it may cause keep the invariant and cost no holder its group. |
| MoqxCaches.WriteStepMeans | src/MoqxCache.cpp:2649-2688 | An accepted write is followed by eviction to the byte limit or to join points only, a refused one by none; what is written to a pinned group is there afterwards. |
| MoqxCaches.LargestComesFirst | src/MoqxCache.cpp:656-660 | A location past the end of the track stops the write before anything changes. |
| MoqxCaches.SubgroupObjectLands | src/MoqxCache.cpp:651-680 | What an open subgroup sends is stored in the group that it pins, and the largest location moves. |
| MoqxCaches.OpenGroupResult | src/MoqxCache.cpp:508-521 | Opening a group with eviction keeps the invariant, and the group is there afterwards, new and empty if it was missing; the track then has one group more than the limit at most, or all others pinned. |
| MoqxCaches.MoqxCache.EvictGroup | src/MoqxCache.cpp:2559-2593 | Keeps the invariant; the new state is the eviction step's. |
| MoqxCaches.EmptyTrack | src/MoqxCache.cpp:2497-2501 | Evicting a track's groups one by one removes exactly their bytes and their LRU entries. |
| MoqxCaches.MoqxCache.EvictTrack | src/MoqxCache.cpp:2478-2505 | The track goes with everything of it; its writebacks find themselves cut off. |
| MoqxCaches.MoqxCache.EvictOldestTrackIfNeeded | src/MoqxCache.cpp:2458-2476 | Over the limit exactly the longest-waiting track goes: it became evictable before every other that waits. It fails exactly when the limit is reached and no track waits. |
| MoqxCaches.MadeRoomResult | src/MoqxCache.cpp:2458-2476 | Making room keeps the invariant, changes no track that stays, and takes exactly the last of the track LRU, exactly when the limit is reached and one waits. |
| MoqxCaches.MoqxCache.EvictOldestGroupsIfNeeded | src/MoqxCache.cpp:2535-2557 | The loop computes the group eviction whose result is proved. |
| MoqxCaches.MoqxCache.EvictForByteLimitIfNeeded | src/MoqxCache.cpp:2595-2647 | The loop computes the byte eviction whose result is proved, and returns true exactly when the total is within the limit. |
| MoqxCaches.MoqxCache.CacheObjectAndUpdateBytes | src/MoqxCache.cpp:2649-2688 | A write keeps the invariant: the cache total stays the sum of all cached payload sizes. |
| MoqxCaches.MoqxCache.GetCachedObjectMaybe | src/MoqxCache.cpp:1798-1834 | Returns the object exactly when it is complete and has not expired, keeps the invariant, and after a miss only a gap can be indexed there. |
| MoqxCaches.MoqxCache.UpdateLargest | src/MoqxCache.cpp:450-474 | Keeps the invariant; changes that track's extent only. |
| MoqxCaches.MoqxCache.InsertGap | src/MoqxCache.h:345-349 | Keeps the invariant; changes that track's gaps and index only. |
| MoqxCaches.MoqxCache.GetOrCreateGroupWithEviction | src/MoqxCache.cpp:508-521 | Keeps the invariant; the new state is the opening step's. |
| MoqxCaches.MoqxCache.OnTrackBecameEvictable | src/MoqxCache.cpp:2383-2393 | The track enters the track LRU at the front exactly when it is evictable and not there yet. |
| MoqxCaches.MoqxCache.RemoveTrackFromLRU | src/MoqxCache.cpp:2373-2381 | The track leaves the track LRU; the others keep their order. |
| MoqxCaches.MoqxCache.GetSubscribeWriteback | src/MoqxCache.cpp:1498-1513 | The whole new state: a missing track is created after room was made, and the track is live and out of the track LRU. |
| MoqxCaches.SubscribeMeans | src/MoqxCache.cpp:1498-1513 | The track has one more live writeback; no other track changes, and at most one that nothing uses goes, and only for a new track. |
| MoqxCaches.SubscribeMakesRoom | src/MoqxCache.cpp:1498-1513 | A subscription to a new track costs the oldest waiting one its place exactly when the limit was reached before. |
| MoqxCaches.MoqxCache.CloseSubscribeWriteback | src/MoqxCache.cpp:866-871 | The live count is positive and falls by one; the track enters the track LRU exactly when it became evictable. |
| MoqxCaches.MoqxCache.PinGroup | src/MoqxCache.cpp:2436-2440 | Keeps the invariant with one more holder. |
| MoqxCaches.MoqxCache.UnpinGroup | src/MoqxCache.cpp:2442-2452 | Keeps the invariant with one holder less; the pin count was positive. After the track's eviction nothing happens. |
| MoqxCaches.MoqxCache.BeginSubgroup | src/MoqxCache.cpp:877-909 | A subgroup is refused exactly in a group known not to exist, also when the track was evicted and only the writeback still knows; otherwise its group is opened and pinned, unless the track is not cached. |
| MoqxCaches.GroupAbsentMeans | src/MoqxCache.cpp:886-893 | A group counts as known not to exist exactly when every position of it is a gap. |
| MoqxCaches.MoqxCache.SubgroupObject | src/MoqxCache.cpp:651-680 | Writes to the pinned group; nothing is written once the track was evicted. |
| MoqxCaches.MoqxCache.SubgroupPayload | src/MoqxCache.cpp:723-758 | Writes a further chunk to the pinned group; bytes past the object's length are an error and change nothing, and nothing is written once the track was evicted. |
| MoqxCaches.MoqxCache.TrackObject | src/MoqxCache.cpp:915-970 | A whole object or datagram updates the largest location, opens its group and is written, in this order. |
| MoqxCaches.MoqxCache.WriteToTrack | src/MoqxCache.cpp:1430-1453 | An upstream fetch's object opens its group and is written; holders stay as they are. |
| MoqxCaches.MoqxCache.BeginFetch | src/MoqxCache.cpp:988-1006 | The whole new state: the track leaves the track LRU and, unless it is not to be cached, one more holder pins the opened first group. |
| MoqxCaches.MoqxCache.EmplaceAndPinGroup | src/MoqxCache.cpp:1328-1342 | Opens and pins the group the fetch writes, and records the fetch. |
| MoqxCaches.MoqxCache.AdvanceFetch | src/MoqxCache.cpp:1018-1043 | The whole new state: crossing into a later group moves the pin with the fetch, at the end of the range the fetch lets go, and no other holder changes. |
| MoqxCaches.MoqxCache.RetireFetch | src/MoqxCache.cpp:1008-1016 | Exactly this fetch and its pin are gone; the track enters the track LRU exactly when it became evictable. |
| MoqxCaches.MoqxCache.GetOrCreateTrack | src/MoqxCache.cpp:1981-1988 | A missing track is created empty and evictable; a cached one is left alone. |
| MoqxCaches.MoqxCache.SetMaxCacheDuration | src/MoqxCache.cpp:1953-1960 | Changes only that track's duration, creating the track if need be. |
| MoqxCaches.MoqxCache.ClearMaxCacheDuration | src/MoqxCache.cpp:1962-1967 | Changes only that track's duration, and nothing for a missing track. |
| MoqxCaches.MoqxCache.SetTrackState | src/MoqxCache.cpp:1990-2009 | Sets the duration and takes the Largest unless it contradicts the end of the track; no other track changes. |
| MoqxCaches.MoqxCache.Fetch | src/MoqxCache.cpp:1515-1550 | The first FETCH of a track creates it, lets the longest-waiting other track make room, and holds its first group; for a cached track nothing changes here. |
| MoqxCaches.MoqxCache.EmplaceTrack | src/MoqxCache.cpp:1522-1532 | The new track is added before room is made and then waits in front of the track LRU. |
| MoqxCaches.NewTrackStays | src/MoqxCache.cpp:1522-1532 | The new track is not the one that makes room for itself, and is evictable until something uses it. |
| MoqxCaches.FirstFetchMakesRoom | src/MoqxCache.cpp:1522-1530 | A first FETCH counts the new track already: the oldest waiting one goes one track earlier than for a subscription. |
| MoqxCaches.MoqxCache.SetMaxCachedBytes | src/MoqxCache.h:107-110 | Only spare groups go; if the new limit is not met, only join points are left. |
| MoqxCaches.MoqxCache.Purge | src/MoqxCache.cpp:2522-2533 | Every track goes, whatever uses it, and the byte total is then 0. |
| FetchPlan.SkipGaps | src/MoqxCache.cpp:2154-2200 | Passes only gap positions and stops at the end or off the gaps. |
| FetchPlan.AdvanceOneSkipsAbsent | src/MoqxCache.cpp:2112-2152 | The step from a cached object goes to the next object, or to the next group from the last object of an ended group; in the last group of the range the range alone decides. It passes only positions known not to exist. |
| FetchPlan.FetchImpl | src/MoqxCache.cpp:1624-1765 | For an oldest-first fetch at a fixed clock the loop ends, and each position of the range is published from the cache, requested upstream or known not to exist; hits and requests are disjoint and ascending, only fresh objects are published, every indexed, complete, unexpired object that no gap or end rules out is, a request starts only where nothing is known, and crosses no fresh object or gap of the index before the end of the track. |
| FetchGaps.FetchWriteback.HandedGapsAreProved | src/MoqxCache.cpp:1379-1428 | Each recorded gap is a position of the range outside every range declared unknown since the previous event, and below the FETCH_OK end or a received object; it was received exactly if its object was cut off. |
| FetchGaps.FetchWriteback.CutOffObjectsAreHanded | src/MoqxCache.cpp:1379-1428 | Once FETCH_OK is known, a received position is recorded as a gap exactly when its object was cut off. |
| FetchGaps.CutOffByTheEnd | src/MoqxCache.cpp:1240-1246 | For every range and position in it, there is a response that ends inside an object at that position and records it as a gap. |
| FetchGaps.FetchWriteback.FetchOkOrderDoesNotMatter | src/MoqxCache.cpp:1287-1292 | Whenever FETCH_OK arrives, the recorded gaps are exactly the marked positions below its end. |
| FetchGaps.FetchWriteback.InsertGap | src/MoqxCache.cpp:1411-1428 | Splits a marked range into the part recorded now and the part held back, losing nothing. |
| FetchGaps.FetchWriteback.SetUpstreamEnd | src/MoqxCache.cpp:1287-1292 | The loop over held-back ranges records exactly what lies below the end. |
| FetchGaps.FetchWriteback.MarkNonExistentTo | src/MoqxCache.cpp:1379-1399 | Marks exactly the positions from the cursor up to the target; a received object at the cursor is thereby cut off. |
| FetchGaps.FetchWriteback.ObjectArrived | src/MoqxCache.cpp:1430-1481 | An object outside the range is refused; one inside marks exactly what lies between the cursor and it, which cuts off exactly an object that the cursor rested on. The cursor moves on only if the object was stored whole. |
| FetchGaps.FetchWriteback.ObjectCompleted | src/MoqxCache.cpp:1189-1198 | The cursor leaves a completed object, so that it is not taken for a gap. |
| FetchGaps.FetchWriteback.EndOfUnknownRange | src/MoqxCache.cpp:1264-1284 | Everything since the previous event up to the target counts as unknown, wherever the cursor was; nothing is marked. |
| FetchGaps.FetchWriteback.FinishRange | src/MoqxCache.cpp:1403-1406 | Marks exactly the rest of the range from the cursor, unless the cursor is past the end of the track; an object that the cursor rests on is thereby cut off. A second end marks nothing. |
| FetchGaps.FetchWriteback.Reset | src/MoqxCache.cpp:1249-1256 | A response that breaks off marks nothing more. |
| FetchAgain.LoneFetch.ObjectArrived | src/MoqxCache.cpp:1430-1481 | The whole new track: the object is stored, the gaps before it are recorded, and the largest location moves unless the store refused; the cursor moves by the track's own knowledge. Every position below the cursor stays stored, known absent or marked; the claim is given up exactly when the object is refused or the gap cap forgets something. |
| FetchAgain.LoneFetch.FetchOkArrived | src/MoqxCache.cpp:1287-1292 | The FETCH_OK, at any time, records exactly the gaps that it proves and keeps the same. |
| FetchAgain.LoneFetch.Finish | src/MoqxCache.cpp:1403-1406 | The end of the response extends the same to the whole range. |
| FetchAgain.LoneFetch.Again | src/MoqxCache.cpp:1555-1601 | After a complete response and its FETCH_OK, and while nothing has expired, the same FETCH requests nothing below the End Location. |
| FetchAgain.RoomKeepsAll | src/MoqxCache.h:345-364 | While the gap cap is not exceeded, recording ranges adds exactly their positions and forgets none. |
| FetchAgain.FewGapsFit | src/MoqxCache.h:359-364 | The cap is not exceeded as long as old intervals and new ranges together are no more than it. |
| FetchAgain.GapsAfterWrite | src/MoqxCache.cpp:278-323 | While the cap is not hit, the gaps after a write are those before, the groups and objects it says were skipped, and what follows it if it is an end marker. |
| FetchAgain.CompleteStays | src/MoqxCache.cpp:278-411 | No write makes a complete object incomplete. |
| FetchAgain.WholeCopyIsComplete | src/MoqxCache.cpp:325-411 | An accepted whole copy that is not shorter than the cached bytes completes its object. |
| FetchAgain.TailsAfterWrite | src/MoqxCache.cpp:309-323 | As long as the cap is not hit, what follows the end of a group is in the gaps after every accepted write. |
| FetchAgain.SteppedOverIsFound | src/MoqxCache.cpp:2112-2152 | The cursor's step from a stored object passes only positions that the track knows. |
| ChunkAssembly.StoredChunkOk | src/MoqxCache.cpp:327-406 | A chunk of the true object that is kept, wherever it starts, leaves an entry that is a prefix of the object and complete only when whole. |
| ChunkAssembly.RunKeepsOk | src/MoqxCache.cpp:684-758 | For every interleaving of writers and every loss of the entry, the cached payload is a prefix of the true object, and complete exactly when it is the whole of it. |
| ChunkAssembly.WholeCopyCompletes | src/MoqxCache.cpp:1110-1168 | A writer that delivered all bytes to the present entry leaves it complete, on every run. |
| ChunkAssembly.RefusedExactly | src/MoqxCache.cpp:333-357 | A further copy is refused exactly for another status, another forwarding preference, or as a whole copy of another length than a whole one. |
| ChunkAssembly.AgreeingRunFollows | src/MoqxCache.cpp:327-406 | Copies that agree on the forwarding preference are never refused: on every run the cached bytes are the object exactly up to the frontier that the chunks reach without a hole, and properties are those of the latest copy from the start. |
| ChunkAssembly.DeliveredIsComplete | src/MoqxCache.cpp:684-758 | A writer that sends all of the object in chunks of any sizes leaves it complete, whatever agreeing writers interleave, unless the entry is dropped meanwhile. |
| HopPaths.ClusterAddCost | src/relay/ClusterPath.h:22-25 | Costs saturate: the sum is exact unless it exceeds 64 bits, and never below either part. |
| HopPaths.ApplyKeepsOk | src/MoqxRelay.cpp:81-122 | Each step of advertising, receiving, withdrawing or losing a path keeps all paths loop free. |
| HopPaths.RunKeepsOk | src/MoqxRelay.cpp:686-726 | On every run no stored or in-flight path repeats a non-zero Hop ID, and no relay stores a path with its own. |
| HopPaths.RunKeepsAccounted | src/MoqxRelay.cpp:686-726 | On every run a stored path lists the relays it came through, and costs the saturated sum of the links on the way. |
| HopPaths.EveryWayIsOpen | src/MoqxRelay.cpp:81-122 | Conversely, for every chain of relays without a loop there is a run after which the last stores the path through the others. |
| HopPaths.ReceiveReplaces | src/MoqxRelay.cpp:506-541 | A received path replaces what its sender had advertised and nothing else; a looped one is dropped, but replaces as well. |
| HopPaths.PathsAreBounded | src/MoqxRelay.cpp:81-122 | Among relays with Hop IDs, no path gets longer than the number of relays, so advertisements do not circulate. |
| Routes.BetterIsTotalOrder | src/NamespaceTree.cpp:83-89 | The path-selection rule is a strict total order on routes of different generations. |
| Routes.BestIsBest | src/NamespaceTree.h:94-102 | The selected route is eligible, and no eligible one is without hop 0 where it has one, then cheaper, then shorter, then newer; none is selected exactly when none is eligible. |
| Routes.SelectRoute | src/NamespaceTree.h:94-102 | The loop returns that route. |
| Routes.SetPublisherKeepsOk | src/NamespaceTree.cpp:164-216 | Announcing keeps: generations and sessions of a node's routes differ, and at most one route is from outside the cluster; a route keeps its generation only with its origin. |
| Routes.SetPublisherMeans | src/NamespaceTree.cpp:164-216 | The session then has exactly one route, the announced one; another session's route goes exactly when both are from outside the cluster. |
| Routes.RepeatKeepsGeneration | src/NamespaceTree.cpp:164-216 | A repeated NAMESPACE keeps its request, and its generation while the origin is the same; any other announcement is new. |
| Routes.OneDisplaced | src/NamespaceTree.cpp:181-183 | An announcement displaces at most one route. |
| Routes.UpdateKeepsOk | src/NamespaceTree.cpp:150-162 | Revising a route keeps the same; a new origin makes a new generation. |
| Routes.EraseKeepsOk | src/NamespaceTree.cpp:245-274 | Withdrawing removes exactly that route and keeps the same. |
| NamespaceTrees.InactiveHasNothing | src/NamespaceTree.h:334-336 | A node that may be pruned has no content at or below it. |
| NamespaceTrees.LiftFollows | src/NamespaceTree.cpp:18-75 | The count check of the pruning loop never fails, and every node keeps counting at least its active children. |
| NamespaceTrees.CountStaysExact | src/NamespaceTree.cpp:71-75 | One step up keeps a parent's count exact exactly unless a child that was already active gains its first content. |
| NamespaceTrees.CountCanStayPositive | src/NamespaceTree.cpp:71-75 | A concrete run after which a node counts a child and has none. |
| NamespaceTrees.LiftContents | src/NamespaceTree.cpp:28-69 | Pruning a child and adapting the count change no content elsewhere. |
| NamespaceTrees.AdsLifts | src/NamespaceTree.cpp:28-69 | Pruning loses no advertisement but those of a changed node that has no content left. |
| NamespaceTrees.Mutate | src/NamespaceTree.h:316-336 | Changing a node's content, with counting and pruning up the path, changes the flat map at exactly that namespace, and loses no advertisement of a namespace with routes; a tree with exact counts keeps them exactly unless the node is not the root, had no content, gets some and counts a child. |
| NamespaceTrees.FindRouteNode | src/NamespaceTree.cpp:91-107 | Finds the longest prefix that has routes; nodes without routes do not shadow it. |
| NamespaceTrees.CollectSubscribers | src/NamespaceTree.cpp:394-425 | Collects every subscriber at the namespace or at a prefix, each once. |
| NamespaceTrees.HasOverlappingTracksSubscription | src/NamespaceTree.cpp:356-392 | True exactly when the session holds an entry at, above or below the prefix. |
| NamespaceTrees.NamespaceTree.AddPublish | src/NamespaceTree.cpp:287-302 | Adds the track at exactly that namespace and returns all its subscribers. |
| NamespaceTrees.NamespaceTree.UnpublishTrack | src/NamespaceTree.cpp:276-285 | Removes the track at exactly that namespace. |
| NamespaceTrees.NamespaceTree.AddNamespaceSubscriber | src/NamespaceTree.cpp:318-327 | Adds the subscriber unless it is there already. |
| NamespaceTrees.NamespaceTree.RemoveNamespaceSubscriber | src/NamespaceTree.cpp:329-354 | Removes the subscriber, if it was there, and erases its advertisements at and below the namespace and no other. |
| NamespaceTrees.NamespaceTree.SetAdvertisements | src/NamespaceTree.h:66-73 | Replaces the advertisements of exactly one node. |
| NamespaceTrees.NamespaceTree.ForEachNodeInSubtree | src/NamespaceTree.h:291-310 | Changes the advertisements of exactly the nodes at and below the prefix. |
| NamespaceTrees.NamespaceTree.SetPublisher | src/NamespaceTree.cpp:164-216 | Changes the routes of exactly that namespace by the announcement and returns its subscribers. |
| NamespaceTrees.NamespaceTree.UpdateRoute | src/NamespaceTree.cpp:218-243 | Revises exactly the named route and returns the subscribers; without one nothing changes. |
| NamespaceTrees.NamespaceTree.UnpublishNamespace | src/NamespaceTree.cpp:245-274 | Removes exactly the named route and returns the subscribers; without one nothing changes. |
| NamespaceTrees.NamespaceTree.FindPublisherSession | src/NamespaceTree.cpp:109-120 | At the longest prefix with any route, returns the route without hop 0, of least cost, shortest and newest, in this order, that is not the excluded session's and does not run through the excluded hop; nothing if there is none. |
| Advertisements.OriginIsConstant | src/MoqxRelay.cpp:656-667 | Between a NAMESPACE and its withdrawal the origin hop never changes. |
| Advertisements.ReconcileSettles | src/MoqxRelay.cpp:641-684 | Whatever was told before, afterwards something is advertised exactly when there is a route, a cluster subscriber was last told its path and cost, and the trace is well formed. |
| Advertisements.ReconcileSends | src/MoqxRelay.cpp:641-684 | Exactly which messages are sent: NAMESPACE_DONE when the route is gone or of another generation with another or an anonymous origin, then NAMESPACE to who knows nothing, or in the cluster something else. |
| Advertisements.ReconcileAdvertisement | src/MoqxRelay.cpp:641-684 | The branches with their messages compute the specified reconciliation; without a handle nothing is sent. |
| Advertisements.ReconcileSubscribers | src/MoqxRelay.cpp:539-541 | After the loop over the collected subscribers, the node advertises to a subscription over the namespace exactly when it has a route, to a cluster subscriber with that route's path and cost; no other advertisement changes, and the node's advertisements stay what the views say. |
| Advertisements.ViewsAfterTelling | src/MoqxRelay.cpp:2070-2073 | A new subscription is told of every namespace under its prefix that has a route for it, and nobody else is told anything. |
| Advertisements.SubscriberIsToldTheBest | src/MoqxRelay.cpp:630-684 | In every valid state a subscription's trace is open exactly when some route is eligible for it, and a cluster subscriber's last message is the best such route, others' carries no parameters; nobody is told of its own route, of one through itself, or of one its own relay published. |
| Advertisements.EligibleMayHear | src/MoqxRelay.cpp:108-122 | Exactly who may be told of a route. |
| Advertisements.RoutesStayInStep | src/NamespaceTree.cpp:164-274 | The tree and the flat table that the advertisements use stay equal when a namespace's routes change. |
| Advertisements.SubscribersStayInStep | src/NamespaceTree.cpp:318-327 | They stay equal when a subscriber is added. |
| Advertisements.UnsubscribedStayInStep | src/NamespaceTree.cpp:329-354 | They stay equal when a subscriber is removed. |
| Advertisements.CollectedAreReconciled | src/NamespaceTree.cpp:394-425 | The subscribers the walk to a node collects are exactly those to be reconciled there, each once. |
| NamespaceRelays.AdvertisedHasRoute | src/MoqxRelay.cpp:663-670 | Only a namespace with a route has advertisements on its node. |
| NamespaceRelays.AdvertisedIsPresent | src/NamespaceTree.cpp:28-69 | A pruned node carries no outstanding advertisement: while a subscription has been told of a namespace, its node is in the tree and holds the advertisement. |
| NamespaceRelays.StoresAfterTelling | src/MoqxRelay.cpp:2070-2073 | Telling a new subscription on the nodes below its prefix leaves exactly the advertisements that its views say. |
| NamespaceRelays.AnnouncedRoute | src/MoqxRelay.cpp:686-726 | An announcement is taken exactly if it did not pass this relay; the session then has one route, with the received path and cost plus link cost, saturated, or hop 0 and the link cost from outside the cluster. |
| NamespaceRelays.WithdrawnMeans | src/NamespaceTree.cpp:245-274 | Exactly the route that the session announced under the request is missing. |
| NamespaceRelays.NamespaceRelay.Settle | src/MoqxRelay.cpp:522-541 | After the routes of a namespace changed in the tree, and its node was possibly pruned, reconciling keeps every subscriber told the best and the tree in step. |
| NamespaceRelays.NamespaceRelay.PublishNamespace | src/MoqxRelay.cpp:506-550 | Refused exactly for a looped path or a foreign prefix; a looped repeat withdraws the route; otherwise the session has one route, with the path and the cost raised by the link. All subscribers stay told the best. |
| NamespaceRelays.NamespaceRelay.UpdatePublishNamespace | src/MoqxRelay.cpp:573-612 | An unknown route changes nothing, a looped path withdraws it, otherwise it is revised. All subscribers stay told the best. |
| NamespaceRelays.NamespaceRelay.PublishNamespaceDone | src/MoqxRelay.cpp:751-771 | Exactly the named route goes. All subscribers stay told the best. |
| NamespaceRelays.NamespaceRelay.SubscribeNamespace | src/MoqxRelay.cpp:2051-2073 | The new subscription is told the best of everything under its prefix; over the match limit nothing changes. |
| NamespaceRelays.NamespaceRelay.UnsubscribeNamespace | src/NamespaceTree.cpp:329-354 | What the subscription was told is forgotten in the whole subtree, and nothing else. |
| Rendezvous.CompactHasWaiter | src/PendingRendezvousTree.h:53-63 | A node that is not empty has a waiter at or below it. |
| Rendezvous.ApplyAtNamespaceNode | src/PendingRendezvousTree.cpp:76-102 | The walk down and back changes the one node and prunes what became empty. |
| Rendezvous.ApplyAtParks | src/PendingRendezvousTree.cpp:76-102 | Nothing outside the namespace is touched by a change and its pruning. |
| Rendezvous.Park | src/PendingRendezvousTree.cpp:21-39 | The walk creates the missing nodes and appends the waiter to its track's list. |
| Rendezvous.CollectSubtree | src/PendingRendezvousTree.cpp:61-74 | Collects every waiter below a node, as often as it is parked. |
| Rendezvous.PendingRendezvousTree.AddWaiter | src/PendingRendezvousTree.cpp:33-39 | Exactly one more waiter is parked on exactly this track. |
| Rendezvous.PendingRendezvousTree.EraseWaiter | src/PendingRendezvousTree.cpp:41-56 | The waiter leaves its track's list; all others stay. |
| Rendezvous.PendingRendezvousTree.WakeForTrack | src/PendingRendezvousTree.cpp:104-119 | Wakes and removes exactly this track's waiters. |
| Rendezvous.PendingRendezvousTree.WakeUnderNamespace | src/PendingRendezvousTree.cpp:121-128 | Wakes and removes exactly the waiters under the prefix; each waiter ever added is parked or has left once. |
| Rendezvous.PendingRendezvousTree.Empty | src/PendingRendezvousTree.h:53-59 | True exactly when nobody is parked, that is when all that were added have left. |
| SafeNames.AppendSafe | src/SafeTrackName.cpp:43-54 | The loop prints bytes as specified. |
| SafeNames.AppendSafeNamespace | src/SafeTrackName.cpp:67-76 | The loop prints tuples with separators as specified. |
| SafeNames.SafeName | src/SafeTrackName.cpp:87-94 | Prints a full track name as specified. |
| SafeNames.PrintedForm | src/SafeTrackName.cpp:16-54 | Letters, digits and the underscore print as themselves, every other byte as a dot and two lower-case hexadecimal digits. |
| SafeNames.ParseSafeBytes | src/SafeTrackName.cpp:96-116 | The loop computes the specified parse, including its refusals. |
| SafeNames.HexValueMeans | src/SafeTrackName.cpp:22-31 | Exactly the hexadecimal digits of either case have a value. |
| SafeNames.ParseSafeNamespace | src/SafeTrackName.cpp:118-137 | The loop computes the specified parse, including its refusals. |
| SafeNames.ParseSafeFullTrackName | src/SafeTrackName.cpp:139-150 | Splits at the last separator and computes the specified parse. |
| SafeNames.BytesRoundTrip | src/SafeTrackName.cpp:43-116 | Parsing what was printed gives every byte string back. |
| SafeNames.ParseThenPrint | src/SafeTrackName.cpp:96-116 | Printing what was parsed gives the text back exactly when it was in printed form; the parser accepts more. |
| SafeNames.NamespaceRoundTrip | src/SafeTrackName.cpp:67-137 | Parsing what was printed gives the namespace back exactly when it is not one empty tuple. |
| SafeNames.FullTrackNameRoundTrip | src/SafeTrackName.cpp:87-150 | The same for full track names, whatever the last tuple of the namespace. |
| SafeNames.SafeNameInjective | src/SafeTrackName.h:17-26 | Two full track names print alike exactly when they are equal up to that one namespace. |
| AuthNames.CanonicalNamespace | src/auth/Auth.h:58-66 | The loop computes the length-prefixed encoding. |
| AuthNames.PrefixMeansTuplePrefix | src/auth/Auth.h:58-66 | With fields below 2^32 bytes, byte prefix means tuple prefix, both ways. |
| AuthNames.EqualMeansTupleEqual | src/auth/Auth.h:58-66 | With fields below 2^32 bytes, equal encodings mean equal tuples. |
| AuthNames.PrefixesDecidedExactly | src/auth/Auth.h:58-66 | The encoding decides tuple prefixes of a namespace, against all prefixes that fit, exactly when all its fields are shorter than 2^32 bytes. |
| AuthNames.OversizedIsConfused | src/auth/Auth.h:61 | For every namespace with an oversized field: a tuple that breaks off inside the first one is a byte prefix and no tuple prefix. |
| AuthNames.OversizedFieldCollides | src/auth/Auth.h:61 | A field of 2^32 bytes encodes like a tuple of empty fields. |
| AuthNames.AllowsImpl | src/auth/Auth.cpp:375-413 | The search allows exactly when the grant is not expired and some scope has the action and matching rules. |
| AuthNames.RuleMeans | src/auth/Auth.cpp:385-410 | An Exact rule matches its value, a Prefix rule whatever starts with it. |
| AuthNames.SuffixMeans | src/auth/Auth.cpp:385-410 | A Suffix rule matches whatever ends with its value. |
| AuthNames.ContainsMeans | src/auth/Auth.cpp:385-410 | A Contains rule matches whatever has its value inside. |
| AuthNames.NamespaceScopesDecideTuples | src/auth/Auth.cpp:385-410 | Prefix and Exact rules made of whole namespaces decide tuple prefix and tuple equality. |

## Left out

- The newest-first cursor walk of a fetch and the `isTail` branch of the upstream intervals: the walk skips the rest of a group after a gap, so exact cover does not hold there. Newest-first order is kept in the range algebra.
- The converse of index soundness (every gap and complete object is indexed): the gap cap, forgotten ranges and expiry drop coverage on purpose.
- That no empty node lingers in the namespace tree: it does not hold, because of the counts (`NamespaceTrees.CountCanStayPositive`).
- FetchPlan.FetchImpl: waits on other fetches in progress, upstream errors, cancellation, a blocked consumer, and objects that arrive while upstream is awaited are not modelled; the cache changes only by expiry during the walk.
- FetchGaps.FetchWriteback.ObjectArrived: the position that the cursor's step lands on is a parameter, any one after the object, since others may change the track meanwhile; FetchAgain computes it.
- FetchGaps.FetchWriteback.EndOfUnknownRange: where the cursor lands is a parameter here too; like ObjectArrived it is not modelled after the end of the response.
- FetchAgain.LoneFetch: has the track to itself, gets whole objects and no end-of-unknown-range, and evicts nothing; after an unknown range the cursor can skip to the next group and leave positions open.
- FetchAgain.LoneFetch.ObjectArrived: requires a copy that is not shorter than what is already cached of its object.
- MoqxCaches.MoqxCache: tracks and groups are values in the cache's maps, and writebacks are handles that a track's eviction invalidates; shared ownership of an evicted track by its writebacks is not modelled.
- MoqxCaches.MoqxCache.BeginSubgroup: the gaps of an evicted track, which only its writeback still holds, are a parameter.
- MoqxCaches.MoqxCache.Fetch: the choice between an immediate FETCH_OK and a deferred one is not modelled.
- MoqxCaches.MoqxCache.SetTrackState: the duration that results from the publisher's extension, the cap and the default is a parameter; track extensions are not kept.
- NamespaceTrees.NamespaceTree: nodes are values, so parent pointers become the walked path; walks over a subtree are recursions; a missing node and a node without the entry are one failure. Property rankings are not in the tree.
- NamespaceRelays.NamespaceRelay: dropping the track subscriptions of a displaced session is not modelled.
- NamespaceRelays.NamespaceRelay.SubscribeNamespace: requires that the session does not hold the same prefix already; the source would keep the first entry and reconcile with the second. Whether the match limit rejects is a parameter, because it also counts tracks.
- NamespaceRelays.NamespaceRelay.PublishNamespace: the waking of parked SUBSCRIBEs is modelled in Rendezvous, not here.
- Rendezvous.PendingRendezvousTree.WakeUnderNamespace: returns each waiter with its track name, so that it can be told which parking it left; signalling and timeouts are not modelled.
- HopPaths: relays exchange paths over reliable cluster links that may also lose them; sessions and subscriptions are not part of the network, and which route a relay advertises is left open.
- AuthNames: Suffix and Contains rules are matched on bytes and not tied to tuples; tokens, signatures and setup are not modelled.
- Coroutine scheduling, executors, batons, and everything behind sessions, forwarders, wire framing, QUIC, TLS and token cryptography.
- Purging one namespace, track statistics, track extensions in FETCH_OK and the group and track limit setters: easy beside the rest.
- `PropertyRanking`, `TopNFilter`, subscription registry, upstream provider, service matching, admin, configuration, logging, BPF steering and scripts.
