/** The object cache: tracks, their writebacks, and eviction. Every operation
    keeps the invariant of CacheInvariant, whatever order operations come in. */
module MoqxCaches {
  import opened Locations
  import opened IntervalSets
  import opened MapTotals
  import opened TrackModel
  import opened CacheTracks
  import opened GroupHolds
  import opened CacheInvariant
  import opened CacheSteps
  import opened Eviction

  /** One write, and the eviction it may set off. */
  function WriteStep(s: CacheState, n: TrackName, w: Write): (Option<PublishError>, CacheState)
    requires Inv(s) && n in s.tracks && w.loc.group in s.tracks[n].groups
  {
    hide Inv, AfterWrite, CacheObject, ContentsOk, TrackBytes, EvictForBytes, WellFormed;
    TrackContents(s, n);
    KnownIsGapOrComplete(s.tracks[n], w.loc);
    AfterWriteGroups(s.tracks[n], w);
    AfterWriteContents(s.tracks[n], w);
    var u := AfterWrite(s.tracks[n], w);
    var bytes := u.groups[w.loc.group].totalBytes - s.tracks[n].groups[w.loc.group].totalBytes;
    SetContentsKeepsInv(s, n, u, bytes);
    var error := CacheObject(s.tracks[n].groups, s.tracks[n].Ix(), w).error;
    (error, if error.Some? then SetContents(s, n, u, bytes) else EvictForBytes(SetContents(s, n, u, bytes)))
  }

  /** One lookup, and the expiry it may realize. */
  function LookupStep(s: CacheState, n: TrackName, p: Location, now: int): (Option<CacheEntry>, CacheState)
    requires Inv(s) && n in s.tracks
  {
    hide Inv, ContentsOk;
    TrackContents(s, n);
    var (hit, u) := TrackLookup(s.tracks[n], s.limits, p, now);
    (hit, SetContents(s, n, u, 0 - ExpiredBytes(s.tracks[n], s.limits, p, now)))
  }

  class MoqxCache {
    var cache: Tracks
    var holds: Holds
    var trackLRU: seq<TrackName>
    var totalCachedBytes: nat
    var subs: Subs
    var limits: Limits
    var nextHandle: Handle

    /** History: when each track last became evictable. */
    ghost var waiting: map<TrackName, nat>
    ghost var clock: nat

    function Snapshot(): CacheState
      reads this
    {
      CacheState(cache, holds, trackLRU, totalCachedBytes, subs, limits)
    }

    ghost predicate HandlesOld()
      reads this
    {
      (forall h :: h in holds.pins ==> h < nextHandle) && (forall h :: h in subs ==> h < nextHandle)
    }

    ghost predicate Valid()
      reads this
    {
      Inv(Snapshot()) && HandlesOld() && NewestFirst(trackLRU, waiting, clock)
    }

    constructor (limits: Limits)
      ensures Valid() && Snapshot() == EmptyCache(limits)
    {
      cache, holds, trackLRU := map[], NO_HOLDS, [];
      totalCachedBytes, subs, nextHandle := 0, map[], 0;
      this.limits := limits;
      waiting, clock := map[], 0;
      new;
      EmptyCacheOk(limits);
    }

    // --- Eviction --------------------------------------------------------------

    /** A group that no writeback or fetch is writing leaves the cache. */
    method EvictGroup(n: TrackName, g: Id)
      requires Valid() && (n, g) in holds.globalLRU
      requires n in cache && n in holds.groupLRU && CanForget(cache[n], g)
      modifies this`cache, this`holds, this`totalCachedBytes
      ensures Valid() && Snapshot() == EvictGroupStep(old(Snapshot()), n, g)
    {
      hide Inv, Evicted, RemoveGroup;
      EvictGroupStepKeepsInv(Snapshot(), n, g);
      BytesCovered(Snapshot(), n, g);
      assert RemoveGroup(holds, (n, g)).pins == holds.pins by { PinsAfterRemoveGroup(holds, (n, g)); }
      totalCachedBytes := totalCachedBytes - cache[n].groups[g].totalBytes;
      holds := RemoveGroup(holds, (n, g));
      var track := new CacheTrack(cache[n]);
      track.DropGroup(g);
      cache := cache[n := track.State()];
    }

    /** A whole track goes. Its writebacks stay behind, cut off from the cache. */
    method EvictTrack(n: TrackName) returns (count: nat)
      requires Valid()
      modifies this`cache, this`holds, this`totalCachedBytes, this`trackLRU, this`subs
      ensures Valid()
      ensures n !in old(cache) ==> count == 0 && Snapshot() == old(Snapshot())
      ensures n in old(cache) ==> count == 1 && Snapshot() == DropTrackStep(old(Snapshot()), n, TrackBytes(old(cache)[n]))
      ensures n in old(cache) ==> cache == old(cache) - {n} && trackLRU == Without(old(trackLRU), n)
    {
      hide Inv, TrackBytes, RemoveTrack, Without, SubsElsewhere, Elsewhere, Total, GroupBytes;
      if n !in cache {
        return 0;
      }
      ghost var s := Snapshot();
      TrackBytesCovered(s, n);
      DropTrackStepKeepsInv(s, n, TrackBytes(cache[n]));
      ListedHaveGroups(s, n);
      TrackBytesMeaning(cache[n]);
      RemoveTrackParts(s, n);
      WithoutKeepsNewestFirst(trackLRU, n, waiting, clock);
      var bytes, lru := EmptyTrack(n, cache[n].groups, holds.globalLRU);
      totalCachedBytes := totalCachedBytes - bytes;
      holds := RemoveTrack(holds, n).(globalLRU := lru);
      cache := cache - {n};
      trackLRU := Without(trackLRU, n);
      subs := SubsElsewhere(subs, n);
      return 1;
    }

    /** The longest-unused track that nothing is using makes room. */
    method EvictOldestTrackIfNeeded() returns (ok: bool)
      requires Valid()
      modifies this`cache, this`holds, this`totalCachedBytes, this`trackLRU, this`subs
      ensures Valid() && Snapshot() == MadeRoom(old(Snapshot()))
      ensures !ok <==> 0 < limits.maxCachedTracks <= |old(cache)| && old(trackLRU) == []
      ensures forall n, m :: n in old(cache) && n !in cache && m in trackLRU ==> SinceIn(waiting, n) < SinceIn(waiting, m)
    {
      hide Inv, TrackBytes, DropTrackStep;
      if limits.maxCachedTracks == 0 || |cache| < limits.maxCachedTracks {
        return true;
      }
      if trackLRU == [] {
        return false;
      }
      OldestTrackUnused(Snapshot());
      forall m | m in trackLRU && m != trackLRU[|trackLRU| - 1]
        ensures SinceIn(waiting, trackLRU[|trackLRU| - 1]) < SinceIn(waiting, m)
      {
        var i :| 0 <= i < |trackLRU| && trackLRU[i] == m;
        ListedEarlierIsNewer(trackLRU, waiting, clock, i, |trackLRU| - 1);
      }
      var _ := EvictTrack(trackLRU[|trackLRU| - 1]);
      return true;
    }

    /** The oldest groups of a track make room, as far as they are not pinned. */
    method EvictOldestGroupsIfNeeded(n: TrackName)
      requires Valid() && n in cache
      modifies this`cache, this`holds, this`totalCachedBytes
      ensures Valid() && Snapshot() == GroupEvict(old(Snapshot()), n)
    {
      hide Inv, EvictGroupStep, Trimmed;
      TracksHaveLru(Snapshot());
      while limits.maxCachedGroupsPerTrack != 0 && |cache[n].groups| > limits.maxCachedGroupsPerTrack && holds.groupLRU[n] != []
        invariant Valid() && n in cache && n in holds.groupLRU
        invariant GroupEvict(Snapshot(), n) == GroupEvict(old(Snapshot()), n)
        invariant limits == old(limits)
        decreases |holds.groupLRU[n]|
      {
        ghost var s := Snapshot();
        var oldest := holds.groupLRU[n][|holds.groupLRU[n]| - 1];
        EvictOldestKeepsInv(s, n);
        OldestIsListed(s, n);
        ListedIsEvictable(s, (n, oldest));
        EvictGroup(n, oldest);
        assert Snapshot() == EvictOldest(s, n);
      }
    }

    /** Evicts down to the low watermark in one pass from the oldest group. */
    method EvictForByteLimitIfNeeded() returns (ok: bool)
      requires Valid()
      modifies this`cache, this`holds, this`totalCachedBytes, this`trackLRU, this`subs
      ensures Valid() && Snapshot() == EvictForBytes(old(Snapshot()))
      ensures ok <==> limits.maxCachedBytes == 0 || totalCachedBytes <= limits.maxCachedBytes
    {
      hide Inv, OnlySpareEvicted, EvictListed;
      if limits.maxCachedBytes == 0 || totalCachedBytes <= limits.maxCachedBytes {
        return true;
      }
      var target := TargetBytes(limits);
      var i: nat := |holds.globalLRU|;
      while totalCachedBytes > target && i != 0
        invariant Valid() && i <= |holds.globalLRU|
        invariant limits == old(limits)
        invariant ByteEvict(Snapshot(), i, target) == EvictForBytes(old(Snapshot()))
        decreases i
      {
        i := i - 1;
        ghost var s := Snapshot();
        var k := holds.globalLRU[i];
        // No listed entry is stale: its track and group are cached.
        ListedIsEvictable(s, k);
        if cache[k.0].IsJoinPoint(k.1) {
          continue;
        }
        EvictListedKeepsInv(s, i);
        EvictListedEntry(k);
      }
      if totalCachedBytes > limits.maxCachedBytes {
        return false;
      }
      return true;
    }

    method EvictListedEntry(k: GroupKey)
      requires Valid() && k in holds.globalLRU
      modifies this`cache, this`holds, this`totalCachedBytes, this`trackLRU, this`subs
      ensures Valid() && Snapshot() == EvictListed(old(Snapshot()), k)
    {
      hide Inv, EvictGroupStep, DropTrackStep, TrackBytes;
      ListedIsEvictable(Snapshot(), k);
      EvictGroup(k.0, k.1);
      StillThere(old(Snapshot()), k);
      if cache[k.0].groups == map[] && CanEvict(cache, holds.fetches, k.0) {
        EmptyTrackBytes(cache[k.0]);
        var _ := EvictTrack(k.0);
      }
    }

    // --- Contents ------------------------------------------------------------------

    /** Whole objects, chunks and markers all come through here: the write, the
        byte accounting, and then the byte limit. */
    method CacheObjectAndUpdateBytes(n: TrackName, w: Write) returns (error: Option<PublishError>)
      requires Valid() && n in cache && w.loc.group in cache[n].groups
      modifies this`cache, this`holds, this`totalCachedBytes, this`trackLRU, this`subs
      ensures Valid()
      ensures (error, Snapshot()) == WriteStep(old(Snapshot()), n, w)
    {
      hide Inv, AfterWrite, CacheObject, ContentsOk, TrackBytes, EvictForBytes, WellFormed;
      var t := cache[n];
      TrackContents(Snapshot(), n);
      KnownIsGapOrComplete(t, w.loc);
      AfterWriteGroups(t, w);
      AfterWriteContents(t, w);
      var track := new CacheTrack(t);
      error := WriteTrack(track, w);
      var before, after := t.groups[w.loc.group].totalBytes, track.groups[w.loc.group].totalBytes;
      SetContentsKeepsInv(Snapshot(), n, track.State(), after - before);
      cache := cache[n := track.State()];
      totalCachedBytes := totalCachedBytes + (after - before);
      if error.None? {
        var _ := EvictForByteLimitIfNeeded();
      }
    }

    /** A hit is a complete object that has not expired. An expired object is
        dropped on the way, with its bytes and its place in the index; so after a
        miss the index claims the position only if it is a gap. */
    method GetCachedObjectMaybe(n: TrackName, p: Location, now: int) returns (hit: Option<CacheEntry>)
      requires Valid() && n in cache
      modifies this`cache, this`totalCachedBytes
      ensures Valid() && n in cache
      ensures (hit, Snapshot()) == LookupStep(old(Snapshot()), n, p, now)
      ensures hit == if Fresh(old(cache)[n], limits, p, now) then EntryAt(old(cache)[n], p) else None
      ensures hit.None? && Contains(cache[n].cachedContent, p) ==> Contains(cache[n].gaps, p)
    {
      hide Inv, ContentsOk, TrackBytes;
      var t := cache[n];
      ghost var s := Snapshot();
      assert cache[n := t] == cache;
      TrackContents(s, n);
      TrackLookupContents(t, limits, p, now);
      if p.group !in t.groups {
        return None;
      }
      var group := t.groups[p.group];
      if p.obj !in group.objects {
        return None;
      }
      var entry := group.objects[p.obj];
      if Expired(t, limits, entry, now) {
        WithoutObjectContents(t, p);
        ObjectBytesCovered(s, n, p);
        SetContentsKeepsInv(s, n, WithoutObject(t, p), 0 - entry.payloadSize);
        totalCachedBytes := totalCachedBytes - entry.payloadSize;
        cache := cache[n := WithoutObject(t, p)];
        return None;
      }
      if !entry.complete {
        return None;
      }
      return Some(entry);
    }

    /** A new largest object, or the end of the track. */
    method UpdateLargest(n: TrackName, current: Location, eot: bool) returns (error: Option<PublishError>)
      requires Valid() && n in cache
      modifies this`cache
      ensures Valid() && Snapshot() == SetContents(old(Snapshot()), n, AfterLargest(old(cache)[n], current, eot), 0)
      ensures Largest(error, cache[n].largest, cache[n].endOfTrack) ==
              UpdatedLargest(old(cache)[n].largest, old(cache)[n].endOfTrack, current, eot)
    {
      hide Inv, ContentsOk, TrackBytes;
      TrackContents(Snapshot(), n);
      AfterLargestContents(cache[n], current, eot);
      SetContentsKeepsInv(Snapshot(), n, AfterLargest(cache[n], current, eot), 0);
      var track := new CacheTrack(cache[n]);
      error := track.UpdateLargest(current, eot);
      cache := cache[n := track.State()];
    }

    /** A fetch response proves a range absent. */
    method InsertGap(n: TrackName, i: Interval)
      requires Valid() && n in cache && Le(i.first, i.last) && WellFormed(cache[n].Ix())
      modifies this`cache
      ensures Valid() && Snapshot() == SetContents(old(Snapshot()), n, AfterGap(old(cache)[n], i), 0)
    {
      hide Inv, ContentsOk, TrackBytes;
      TrackContents(Snapshot(), n);
      AfterGapContents(cache[n], i);
      SetContentsKeepsInv(Snapshot(), n, AfterGap(cache[n], i), 0);
      var track := new CacheTrack(cache[n]);
      track.InsertGap(i.first, i.last);
      cache := cache[n := track.State()];
    }

    /** A new group first makes room under the per-track limit. */
    method GetOrCreateGroupWithEviction(n: TrackName, g: Id)
      requires Valid() && n in cache
      modifies this`cache, this`holds, this`totalCachedBytes
      ensures Valid() && Snapshot() == OpenGroup(old(Snapshot()), n, g)
    {
      hide Inv, GroupEvict, AddGroup;
      TracksHaveLru(Snapshot());
      if g in cache[n].groups {
        return;
      }
      EvictOldestGroupsIfNeeded(n);
      GroupEvictResult(old(Snapshot()), n);
      AddGroupStepKeepsInv(Snapshot(), n, g);
      AddGroupPins(holds, (n, g));
      cache := cache[n := WithGroup(cache[n], g)];
      holds := AddGroup(holds, (n, g));
    }

    // --- Subscriptions -------------------------------------------------------------

    /** A track that may now be unused waits for eviction. It is looked up by name:
        an evicted track's successor of the same name is what counts. */
    method OnTrackBecameEvictable(n: TrackName)
      requires Valid()
      modifies this`trackLRU, this`waiting, this`clock
      ensures Valid()
      ensures trackLRU == if CanEvict(cache, holds.fetches, n) && n !in old(trackLRU) then [n] + old(trackLRU) else old(trackLRU)
    {
      hide Inv;
      if n in cache && CanEvict(cache, holds.fetches, n) && n !in trackLRU {
        SetTrackLruKeepsInv(Snapshot(), [n] + trackLRU, n);
        NewestInFront(trackLRU, n, waiting, clock);
        trackLRU := [n] + trackLRU;
        waiting, clock := waiting[n := clock], clock + 1;
      }
    }

    method RemoveTrackFromLRU(n: TrackName)
      requires Valid()
      modifies this`trackLRU
      ensures Valid() && trackLRU == Without(old(trackLRU), n)
    {
      hide Inv, Without;
      SetTrackLruKeepsInv(Snapshot(), Without(trackLRU, n), n);
      WithoutKeepsNewestFirst(trackLRU, n, waiting, clock);
      trackLRU := Without(trackLRU, n);
    }

    method AddNewTrack(n: TrackName)
      requires Valid() && n !in cache
      modifies this`cache, this`holds
      ensures Valid() && Snapshot() == AddTrackStep(old(Snapshot()), n)
    {
      hide Inv;
      AddTrackStepKeepsInv(Snapshot(), n);
      cache := cache[n := NEW_TRACK];
      holds := AddTrack(holds, n);
    }

    /** A subscription makes its track live: until it closes, the track is not
        evicted for space. */
    method GetSubscribeWriteback(n: TrackName) returns (h: Handle)
      requires Valid()
      modifies this
      ensures Valid() && h == old(nextHandle) && Snapshot() == SubscribeStep(old(Snapshot()), n, h)
    {
      hide Inv, LiveStep, EnsuredTrack;
      EnsuredTrackResult(Snapshot(), n);
      EnsureTrack(n);
      h := GoLive(n);
    }

    method GoLive(n: TrackName) returns (h: Handle)
      requires Valid() && n in cache
      modifies this`cache, this`trackLRU, this`subs, this`nextHandle
      ensures Valid() && h == old(nextHandle) && Snapshot() == LiveStep(old(Snapshot()), n, h)
    {
      hide Inv, Holders, Without;
      RemoveTrackFromLRU(n);
      h := nextHandle;
      nextHandle := nextHandle + 1;
      SubscribeKeepsInv(Snapshot(), n, h);
      subs := subs[h := n];
      cache := cache[n := cache[n].(liveWritebackCount := cache[n].liveWritebackCount + 1)];
    }

    /** A missing track is created, after an older one has made room. */
    method EnsureTrack(n: TrackName)
      requires Valid()
      modifies this`cache, this`holds, this`totalCachedBytes, this`trackLRU, this`subs
      ensures Valid() && Snapshot() == EnsuredTrack(old(Snapshot()), n)
    {
      hide Inv, AddTrackStep, MadeRoom;
      if n !in cache {
        MadeRoomResult(Snapshot());
        if |cache| >= limits.maxCachedTracks {
          var _ := EvictOldestTrackIfNeeded();
        }
        AddNewTrack(n);
      }
    }

    /** The last one to close leaves the track to be evicted. */
    method CloseSubscribeWriteback(h: Handle, n: TrackName)
      requires Valid() && (h in subs ==> subs[h] == n)
      modifies this`cache, this`subs, this`trackLRU, this`waiting, this`clock
      ensures Valid() && subs == old(subs) - {h}
      ensures h !in old(subs) ==> cache == old(cache)
      ensures h in old(subs) ==>
                && n in old(cache) && old(cache)[n].liveWritebackCount > 0
                && cache == old(cache)[n := old(cache)[n].(liveWritebackCount := old(cache)[n].liveWritebackCount - 1)]
      ensures trackLRU == if CanEvict(cache, holds.fetches, n) && n !in old(trackLRU) then [n] + old(trackLRU) else old(trackLRU)
    {
      hide Inv, Holders;
      if h in subs {
        UnsubscribeKeepsInv(Snapshot(), n, h);
        cache := cache[n := cache[n].(liveWritebackCount := cache[n].liveWritebackCount - 1)];
        subs := subs - {h};
      }
      assert subs == old(subs) - {h};
      OnTrackBecameEvictable(n);
    }

    // --- Subgroup writebacks ---------------------------------------------------------

    /** Claims a group for writing, so that it is in neither LRU. */
    method PinGroup(n: TrackName, g: Id) returns (h: Handle)
      requires Valid() && n in cache && g in cache[n].groups && n in holds.groupLRU
      modifies this`holds, this`nextHandle
      ensures Valid() && h == old(nextHandle) && (n, g) in old(holds).pinCount
      ensures holds == Pin(old(holds), (n, g), h)
    {
      hide Inv, Pin;
      h := nextHandle;
      nextHandle := nextHandle + 1;
      PinStepKeepsInv(Snapshot(), (n, g), h);
      holds := Pin(holds, (n, g), h);
    }

    /** Releases the group of h, if its track is still cached; a fetch also
        retires its in-progress entry. */
    method UnpinGroup(h: Handle)
      requires Valid()
      modifies this`holds
      ensures Valid()
      ensures h !in old(holds).pins ==> holds == old(holds)
      ensures h in old(holds).pins ==>
                && old(holds).pins[h] in old(holds).pinCount && old(holds).pinCount[old(holds).pins[h]] > 0
                && old(holds).pins[h].0 in old(holds).groupLRU && holds == Unpin(old(holds), h)
    {
      hide Inv, Unpin;
      if h in holds.pins {
        UnpinStepKeepsInv(Snapshot(), h);
        holds := Unpin(holds, h);
      }
    }

    /** Opens a subgroup under a subscription. A group known not to exist is an error;
        for an evicted track, what its writeback still knows decides. An uncached or
        evicted track passes through. */
    method BeginSubgroup(sub: Handle, detachedGaps: IntervalSet, g: Id) returns (h: Option<Handle>, error: bool)
      requires Valid()
      modifies this`cache, this`holds, this`totalCachedBytes, this`nextHandle
      ensures Valid() && (sub in subs ==> subs[sub] in old(cache))
      ensures error <==> GroupAbsent(if sub in subs then old(cache)[subs[sub]].gaps else detachedGaps, g)
      ensures h.Some? <==> sub in subs && !error && old(cache)[subs[sub]].maxCacheDuration != Some(0)
      ensures h.None? ==> Snapshot() == old(Snapshot())
      ensures h.Some? ==> h.value == old(nextHandle) && Snapshot() == OpenThenPin(old(Snapshot()), subs[sub], g, h.value)
      ensures h.Some? ==> holds.pins == old(holds).pins[h.value := (subs[sub], g)]
    {
      hide Inv, OpenGroup, GroupAbsent;
      if sub !in subs {
        return None, GroupAbsent(detachedGaps, g);
      }
      var n := subs[sub];
      SubscribedIsCached(Snapshot(), sub);
      if GroupAbsent(cache[n].gaps, g) {
        return None, true;
      }
      if cache[n].ShouldSkipCaching() {
        return None, false;
      }
      GetOrCreateGroupWithEviction(n, g);
      OpenGroupResult(old(Snapshot()), n, g);
      ghost var before := holds;
      var handle := PinGroup(n, g);
      PinHolds(before, (n, g), handle);
      return Some(handle), false;
    }

    /** An object or marker of an open subgroup: the track's Largest, then the
        object. The group it writes cannot have left the cache. */
    method SubgroupObject(h: Handle, w: Write, eot: bool) returns (error: Option<PublishError>)
      requires Valid() && (h in holds.pins ==> w.loc.group == holds.pins[h].1)
      modifies this`cache, this`holds, this`totalCachedBytes, this`trackLRU, this`subs
      ensures Valid() && holds.pins == old(holds).pins && subs == old(subs)
      ensures h !in old(holds).pins || old(cache)[old(holds).pins[h].0].maxCacheDuration == Some(0) ==> error.None? && Snapshot() == old(Snapshot())
      ensures h in old(holds).pins && old(cache)[old(holds).pins[h].0].maxCacheDuration != Some(0) ==>
                (error, Snapshot()) == LargestThenWrite(old(Snapshot()), old(holds).pins[h].0, w, eot)
    {
      hide Inv, WriteStep, AfterLargest;
      if h !in holds.pins {
        return None;
      }
      var n := holds.pins[h].0;
      HeldHandle(Snapshot(), h);
      if cache[n].ShouldSkipCaching() {
        return None;
      }
      error := WriteWithLargest(n, w, eot);
    }

    method WriteWithLargest(n: TrackName, w: Write, eot: bool) returns (error: Option<PublishError>)
      requires Valid() && n in cache && w.loc.group in cache[n].groups
      modifies this`cache, this`holds, this`totalCachedBytes, this`trackLRU, this`subs
      ensures Valid() && holds.pins == old(holds).pins && holds.fetches == old(holds).fetches && subs == old(subs)
      ensures (error, Snapshot()) == LargestThenWrite(old(Snapshot()), n, w, eot)
    {
      hide Inv, WriteStep, AfterLargest;
      AfterLargestGroups(cache[n], w.loc, eot);
      error := UpdateLargest(n, w.loc, eot);
      if error.Some? {
        return;
      }
      WriteStepResult(Snapshot(), n, w);
      error := CacheObjectAndUpdateBytes(n, w);
    }

    /** A further chunk of an object of the given length that was being cached when it
        began. Bytes past the length end the stream, and nothing of them is cached. */
    method SubgroupPayload(h: Handle, w: Write, length: nat) returns (error: Option<PublishError>)
      requires Valid() && (h in holds.pins ==> w.loc.group == holds.pins[h].1)
      requires w.complete == (w.offset + |BytesOf(w.payload)| == length)
      modifies this`cache, this`holds, this`totalCachedBytes, this`trackLRU, this`subs
      ensures Valid() && holds.pins == old(holds).pins && subs == old(subs)
      ensures h !in old(holds).pins ==> error.None? && Snapshot() == old(Snapshot())
      ensures h in old(holds).pins && w.offset + |BytesOf(w.payload)| > length ==>
                error == Some(PayloadPastLength) && Snapshot() == old(Snapshot())
      ensures h in old(holds).pins && w.offset + |BytesOf(w.payload)| <= length ==>
                (error, Snapshot()) == HeldWrite(old(Snapshot()), h, w)
    {
      hide Inv, WriteStep;
      if h !in holds.pins {
        return None;
      }
      if w.offset + |BytesOf(w.payload)| > length {
        return Some(PayloadPastLength);
      }
      HeldHandle(Snapshot(), h);
      WriteStepResult(Snapshot(), holds.pins[h].0, w);
      error := CacheObjectAndUpdateBytes(holds.pins[h].0, w);
    }

    /** A datagram or single-object stream of a subscription. */
    method TrackObject(sub: Handle, w: Write, eot: bool) returns (error: Option<PublishError>)
      requires Valid()
      modifies this`cache, this`holds, this`totalCachedBytes, this`trackLRU, this`subs
      ensures Valid() && holds.pins == old(holds).pins && subs == old(subs)
      ensures sub !in subs || old(cache)[subs[sub]].maxCacheDuration == Some(0) ==> error.None? && Snapshot() == old(Snapshot())
      ensures sub in subs && old(cache)[subs[sub]].maxCacheDuration != Some(0) ==>
                (error, Snapshot()) == LargestThenOpenThenWrite(old(Snapshot()), subs[sub], w, eot)
    {
      hide Inv, OpenThenWrite, AfterLargest;
      if sub !in subs {
        return None;
      }
      var n := subs[sub];
      SubscribedIsCached(Snapshot(), sub);
      if cache[n].ShouldSkipCaching() {
        return None;
      }
      error := UpdateLargest(n, w.loc, eot);
      if error.Some? {
        return;
      }
      error := WriteToTrack(n, w);
    }

    /** Also the write of a fetch writeback, whose group may have been evicted. */
    method WriteToTrack(n: TrackName, w: Write) returns (error: Option<PublishError>)
      requires Valid() && n in cache
      modifies this`cache, this`holds, this`totalCachedBytes, this`trackLRU, this`subs
      ensures Valid() && holds.pins == old(holds).pins && holds.fetches == old(holds).fetches && subs == old(subs)
      ensures (error, Snapshot()) == OpenThenWrite(old(Snapshot()), n, w)
    {
      hide Inv, WriteStep, OpenGroup;
      OpenGroupResult(Snapshot(), n, w.loc.group);
      GetOrCreateGroupWithEviction(n, w.loc.group);
      WriteStepResult(Snapshot(), n, w);
      error := CacheObjectAndUpdateBytes(n, w);
    }

    // --- Fetches -------------------------------------------------------------------

    /** A fetch that caches enters its range and pins the group it starts in. */
    method BeginFetch(n: TrackName, start: Location, end: Location) returns (h: Option<Handle>)
      requires Valid() && n in cache
      modifies this`cache, this`holds, this`totalCachedBytes, this`trackLRU, this`nextHandle
      ensures Valid() && n in cache && n !in trackLRU && trackLRU == Without(old(trackLRU), n)
      ensures h == if old(cache)[n].maxCacheDuration == Some(0) then None else Some(old(nextHandle))
      ensures Snapshot() == FetchStep(old(Snapshot()), n, old(nextHandle), start, end)
      ensures h.Some? ==> holds.fetches == old(holds).fetches[h.value := FetchEntry(n, start, end, start)]
      ensures h.Some? ==> holds.pins == old(holds).pins[h.value := (n, start.group)]
      ensures h.None? ==> holds == old(holds) && cache == old(cache)
    {
      hide Inv, GroupEvict, AddGroup, EnterFetch, Without, OpenThenEnter;
      RemoveTrackFromLRU(n);
      if cache[n].ShouldSkipCaching() {
        return None;
      }
      var handle := nextHandle;
      nextHandle := nextHandle + 1;
      EmplaceAndPinGroup(handle, FetchEntry(n, start, end, start));
      return Some(handle);
    }

    /** The group is created first if need be, so that it is pinned before any
        object lands. */
    method EmplaceAndPinGroup(h: Handle, entry: FetchEntry)
      requires Valid() && entry.track in cache && entry.track !in trackLRU && h !in holds.pins && h < nextHandle
      modifies this`cache, this`holds, this`totalCachedBytes
      ensures Valid() && entry.track in cache
      ensures h in holds.fetches && holds.fetches[h] == entry
      ensures holds.pins == old(holds).pins[h := (entry.track, entry.key.group)]
      ensures holds.fetches == old(holds).fetches[h := entry]
      ensures Snapshot() == OpenThenEnter(old(Snapshot()), h, entry)
    {
      hide Inv, OpenGroup, EnterFetch;
      OpenGroupResult(Snapshot(), entry.track, entry.key.group);
      GetOrCreateGroupWithEviction(entry.track, entry.key.group);
      EnterFetchKeepsInv(Snapshot(), h, entry);
      holds := EnterFetch(holds, h, entry);
    }

    /** The cursor of a fetch moves on. Crossing into a later group inside the
        range moves its pin there; reaching the end retires its entry. */
    method AdvanceFetch(h: Handle, current: Location)
      requires Valid()
      modifies this`cache, this`holds, this`totalCachedBytes
      ensures Valid()
      ensures Snapshot() == AdvanceStep(old(Snapshot()), h, current)
      ensures h !in old(holds).fetches ==> Snapshot() == old(Snapshot())
      ensures h in old(holds).fetches ==>
                var e := old(holds).fetches[h];
                if current.group <= e.key.group then
                  && holds == old(holds).(fetches := old(holds).fetches[h := e.(progress := current)])
                else if Lt(current, e.end) then
                  && holds.fetches == old(holds).fetches[h := FetchEntry(e.track, current, e.end, current)]
                  && holds.pins == old(holds).pins[h := (e.track, current.group)]
                else holds.fetches == old(holds).fetches - {h} && holds.pins == old(holds).pins - {h}
    {
      hide Inv, GroupEvict, AddGroup, Unpin, OpenThenEnter;
      if h !in holds.fetches {
        return;
      }
      var e := holds.fetches[h];
      FetchingTrack(Snapshot(), h);
      UnpinStepKeepsInv(Snapshot(), h);
      if current.group <= e.key.group {
        ProgressKeepsInv(Snapshot(), h, current);
        holds := holds.(fetches := holds.fetches[h := e.(progress := current)]);
        return;
      }
      ghost var before := holds;
      UnpinGroup(h);
      UnpinHolds(before, h);
      if Lt(current, e.end) {
        EmplaceAndPinGroup(h, FetchEntry(e.track, current, e.end, current));
      }
    }

    /** A fetch ends, is reset, or is destroyed. */
    method RetireFetch(h: Handle, n: TrackName)
      requires Valid() && (h in holds.fetches ==> holds.fetches[h].track == n)
      modifies this`holds, this`trackLRU, this`waiting, this`clock
      ensures Valid() && h !in holds.fetches
      ensures h !in old(holds).fetches ==> holds == old(holds)
      ensures h in old(holds).fetches ==>
                && h in old(holds).pins && old(holds).pins[h] in old(holds).pinCount
                && old(holds).pinCount[old(holds).pins[h]] > 0 && old(holds).pins[h].0 in old(holds).groupLRU
                && holds == Unpin(old(holds), h) && holds.pins == old(holds).pins - {h} && holds.fetches == old(holds).fetches - {h}
      ensures trackLRU == if CanEvict(cache, holds.fetches, n) && n !in old(trackLRU) then [n] + old(trackLRU) else old(trackLRU)
    {
      hide Inv, Unpin;
      if h in holds.fetches {
        ghost var before := holds;
        FetchingTrack(Snapshot(), h);
        UnpinGroup(h);
        UnpinHolds(before, h);
      }
      OnTrackBecameEvictable(n);
    }

    // --- Configuration ---------------------------------------------------------------

    /** A new track is evictable until something uses it. */
    method GetOrCreateTrack(n: TrackName)
      requires Valid()
      modifies this`cache, this`holds, this`trackLRU, this`waiting, this`clock
      ensures Valid()
      ensures n in old(cache) ==> Snapshot() == old(Snapshot())
      ensures n !in old(cache) ==>
                Snapshot() == AddTrackStep(old(Snapshot()), n).(trackLRU := [n] + old(trackLRU))
    {
      hide Inv, AddTrack;
      if n !in cache {
        NewTrackIsEvictable(Snapshot(), n);
        AddNewTrack(n);
        OnTrackBecameEvictable(n);
      }
    }

    method SetDuration(n: TrackName, duration: Option<nat>)
      requires Valid() && n in cache
      modifies this`cache
      ensures Valid() && cache == old(cache)[n := old(cache)[n].(maxCacheDuration := duration)]
    {
      hide Inv, ContentsOk, TrackBytes;
      TrackContents(Snapshot(), n);
      AfterDurationContents(cache[n], duration);
      SetContentsKeepsInv(Snapshot(), n, cache[n].(maxCacheDuration := duration), 0);
      cache := cache[n := cache[n].(maxCacheDuration := duration)];
    }

    method SetMaxCacheDuration(n: TrackName, duration: nat)
      requires Valid()
      modifies this`cache, this`holds, this`trackLRU, this`waiting, this`clock
      ensures Valid() && totalCachedBytes == old(totalCachedBytes)
      ensures cache == old(cache)[n := TrackOr(old(cache), n).(maxCacheDuration := Some(duration))]
    {
      hide Inv, AddTrack;
      GetOrCreateTrack(n);
      SetDuration(n, Some(duration));
    }

    method ClearMaxCacheDuration(n: TrackName)
      requires Valid()
      modifies this`cache
      ensures Valid()
      ensures n !in old(cache) ==> cache == old(cache)
      ensures n in old(cache) ==> cache == old(cache)[n := old(cache)[n].(maxCacheDuration := None)]
    {
      hide Inv;
      if n in cache {
        SetDuration(n, None);
      }
    }

    /** Takes over duration and Largest from upstream. A Largest that contradicts the
        known end changes nothing. */
    method SetTrackState(n: TrackName, duration: Option<nat>, largest: Option<Location>)
      requires Valid()
      modifies this`cache, this`holds, this`trackLRU, this`waiting, this`clock
      ensures Valid()
      ensures var t := TrackOr(old(cache), n).(maxCacheDuration := duration);
              cache == old(cache)[n := if largest.Some? then AfterLargest(t, largest.value, false) else t]
    {
      hide Inv, AddTrack, UpdatedLargest;
      if duration.Some? {
        SetMaxCacheDuration(n, duration.value);
      } else {
        ClearMaxCacheDuration(n);
      }
      GetOrCreateTrack(n);
      if largest.Some? {
        var _ := UpdateLargest(n, largest.value, false);
      }
    }

    /** The first FETCH of a track creates it, and an older track may make room; the
        whole range is then fetched. A cached track is walked instead, which does not
        begin here. */
    method Fetch(n: TrackName, start: Location, end: Location) returns (h: Option<Handle>)
      requires Valid()
      modifies this
      ensures Valid() && n in cache
      ensures n in old(cache) ==> h.None? && Snapshot() == old(Snapshot())
      ensures n !in old(cache) ==>
                h == Some(old(nextHandle)) && Snapshot() == FirstFetchStep(old(Snapshot()), n, old(nextHandle), start, end)
      ensures n !in old(cache) ==>
                n !in trackLRU && h.value in holds.fetches && holds.fetches[h.value] == FetchEntry(n, start, end, start)
    {
      hide Inv, AddTrackStep, Without, MadeRoom, FetchStep, CanEvict;
      if n in cache {
        return None;
      }
      NewTrackStays(Snapshot(), n);
      EmplaceTrack(n);
      h := BeginFetch(n, start, end);
    }

    /** A track that is not cached yet is there already when room is made for it. */
    method EmplaceTrack(n: TrackName)
      requires Valid() && n !in cache && Inv(AddTrackStep(Snapshot(), n))
      modifies this`cache, this`holds, this`totalCachedBytes, this`trackLRU, this`subs, this`waiting, this`clock
      ensures Valid() && n in cache && cache[n] == NEW_TRACK
      ensures var u := MadeRoom(AddTrackStep(old(Snapshot()), n));
              Snapshot() == u.(trackLRU := [n] + u.trackLRU)
    {
      hide Inv, AddTrackStep, MadeRoom, CanEvict;
      ghost var added := AddTrackStep(Snapshot(), n);
      NewTrackStays(Snapshot(), n);
      MadeRoomResult(added);
      AddNewTrack(n);
      if |cache| >= limits.maxCachedTracks {
        var _ := EvictOldestTrackIfNeeded();
      }
      OnTrackBecameEvictable(n);
    }

    /** A lower limit is met at once, as far as unpinned groups other than join points
        go. */
    method SetMaxCachedBytes(maxBytes: nat) returns (ok: bool)
      requires Valid()
      modifies this`cache, this`holds, this`totalCachedBytes, this`trackLRU, this`subs, this`limits
      ensures Valid() && limits == old(limits).(maxCachedBytes := maxBytes)
      ensures OnlySpareEvicted(old(Snapshot()).(limits := limits), Snapshot())
      ensures ok <==> maxBytes == 0 || totalCachedBytes <= maxBytes
      ensures !ok ==> RestAreJoinPoints(Snapshot(), 0)
    {
      hide Inv, EvictForBytes, OnlySpareEvicted, RestAreJoinPoints;
      LimitsAreFree(Snapshot(), limits.(maxCachedBytes := maxBytes));
      limits := limits.(maxCachedBytes := maxBytes);
      EvictForBytesResult(Snapshot());
      ok := EvictForByteLimitIfNeeded();
    }

    /** Everything goes, whatever is using it. */
    method Purge() returns (count: nat)
      requires Valid()
      modifies this`cache, this`holds, this`totalCachedBytes, this`trackLRU, this`subs
      ensures Valid() && cache == map[] && totalCachedBytes == 0 && count == |old(cache)|
    {
      hide Inv, TrackBytes, RemoveTrack, Without, SubsElsewhere;
      count := 0;
      while cache != map[]
        invariant Valid() && count + |cache| == |old(cache)|
        decreases |cache|
      {
        var n :| n in cache;
        var one := EvictTrack(n);
        count := count + one;
      }
      EmptyHasNoBytes(Snapshot());
    }
  }

  /** The write itself, on the track. */
  method WriteTrack(track: CacheTrack, w: Write) returns (error: Option<PublishError>)
    requires w.loc.group in track.groups && WellFormed(track.State().Ix())
    modifies track
    ensures track.State() == AfterWrite(old(track.State()), w)
    ensures error == CacheObject(old(track.groups), old(track.State().Ix()), w).error
    ensures track.lastWrite == if error.None? then w.now else old(track.lastWrite)
  {
    hide CacheObject, WellFormed;
    error := track.CacheObject(w);
    if error.None? {
      track.lastWrite := w.now;
    }
  }

  // --- Steps made of several --------------------------------------------------------------

  /** The track that has waited longest goes, if there are too many and any waits. */
  ghost function MadeRoom(s: CacheState): CacheState
    requires Inv(s)
  {
    hide Inv;
    if s.limits.maxCachedTracks == 0 || |s.tracks| < s.limits.maxCachedTracks || s.trackLRU == [] then s
    else
      OldestTrackUnused(s);
      var oldest := s.trackLRU[|s.trackLRU| - 1];
      DropTrackStep(s, oldest, TrackBytes(s.tracks[oldest]))
  }

  lemma MadeRoomResult(s: CacheState)
    requires Inv(s)
    ensures Inv(MadeRoom(s)) && MadeRoom(s).limits == s.limits
    ensures |s.tracks| < s.limits.maxCachedTracks ==> MadeRoom(s) == s
    ensures forall n :: n in MadeRoom(s).tracks ==> n in s.tracks && MadeRoom(s).tracks[n] == s.tracks[n]
    ensures forall n :: n in s.tracks && n !in s.trackLRU ==> n in MadeRoom(s).tracks
    ensures MadeRoom(s).tracks.Keys ==
            if 0 < s.limits.maxCachedTracks <= |s.tracks| && s.trackLRU != []
            then s.tracks.Keys - {s.trackLRU[|s.trackLRU| - 1]} else s.tracks.Keys
  {
    hide Inv, TrackBytes, RemoveTrack, Without, SubsElsewhere;
    if s.trackLRU != [] {
      OldestTrackUnused(s);
      var oldest := s.trackLRU[|s.trackLRU| - 1];
      DropTrackStepKeepsInv(s, oldest, TrackBytes(s.tracks[oldest]));
    }
  }

  ghost function EnsuredTrack(s: CacheState, n: TrackName): CacheState
    requires Inv(s)
  {
    if n in s.tracks then s else AddTrackStep(MadeRoom(s), n)
  }

  lemma EnsuredTrackResult(s: CacheState, n: TrackName)
    requires Inv(s)
    ensures n in EnsuredTrack(s, n).tracks
    ensures EnsuredTrack(s, n).tracks == if n in s.tracks then s.tracks else MadeRoom(s).tracks[n := NEW_TRACK]
  {
    hide Inv, MadeRoom, AddTrack;
  }

  /** A subscription makes its track live. */
  ghost function SubscribeStep(s: CacheState, n: TrackName, h: Handle): CacheState
    requires Inv(s)
  {
    hide Inv, EnsuredTrack;
    EnsuredTrackResult(s, n);
    LiveStep(EnsuredTrack(s, n), n, h)
  }

  function LiveStep(s: CacheState, n: TrackName, h: Handle): CacheState
    requires n in s.tracks
  {
    SetLive(s.(trackLRU := Without(s.trackLRU, n)), n, s.tracks[n].liveWritebackCount + 1, s.subs[h := n])
  }

  /** Only a new track costs another its place, and only one that nothing uses. */
  lemma SubscribeMeans(s: CacheState, n: TrackName, h: Handle)
    requires Inv(s)
    ensures var u := SubscribeStep(s, n, h);
            && n in u.tracks && n !in u.trackLRU && h in u.subs && u.subs[h] == n
            && u.tracks[n] == TrackOr(s.tracks, n).(liveWritebackCount := TrackOr(s.tracks, n).liveWritebackCount + 1)
            && (n in s.tracks ==> u.tracks.Keys == s.tracks.Keys && u.totalCachedBytes == s.totalCachedBytes)
            && (forall m :: m != n && m in u.tracks ==> m in s.tracks && u.tracks[m] == s.tracks[m])
            && (forall m :: m in s.tracks && m !in u.tracks ==> CanEvict(s.tracks, s.holds.fetches, m))
  {
    hide Inv, MadeRoom, AddTrack;
    MadeRoomResult(s);
    EnsuredTrackResult(s, n);
    OnlyUnusedGo(s);
  }

  lemma OnlyUnusedGo(s: CacheState)
    requires Inv(s)
    ensures forall m :: m in s.tracks && m !in MadeRoom(s).tracks ==> CanEvict(s.tracks, s.holds.fetches, m)
  {
    hide Inv, TrackBytes, RemoveTrack;
    if s.trackLRU != [] {
      OldestTrackUnused(s);
    }
  }

  /** A fetch takes its track out of the track LRU and, if it caches, opens and pins the
      group it starts in. */
  function FetchStep(s: CacheState, n: TrackName, h: Handle, start: Location, end: Location): CacheState
    requires Inv(s) && n in s.tracks
  {
    hide Inv, OpenThenEnter, Without;
    SetTrackLruKeepsInv(s, Without(s.trackLRU, n), n);
    var u := s.(trackLRU := Without(s.trackLRU, n));
    if s.tracks[n].ShouldSkipCaching() then u else OpenThenEnter(u, h, FetchEntry(n, start, end, start))
  }

  /** The new track is there when room is made, so it is not what goes. */
  ghost function FirstFetchStep(s: CacheState, n: TrackName, h: Handle, start: Location, end: Location): CacheState
    requires Inv(s) && n !in s.tracks
  {
    hide Inv, MadeRoom, FetchStep, AddTrackStep;
    NewTrackStays(s, n);
    var u := MadeRoom(AddTrackStep(s, n));
    FetchStep(u.(trackLRU := [n] + u.trackLRU), n, h, start, end)
  }

  /** One track makes room for a new one, if there are enough and any waits. */
  lemma SubscribeMakesRoom(s: CacheState, n: TrackName, h: Handle)
    requires Inv(s) && n !in s.tracks
    ensures SubscribeStep(s, n, h).tracks.Keys == s.tracks.Keys - Oldest(s, |s.tracks|) + {n}
  {
    hide Inv, MadeRoom, AddTrack, Without;
    MadeRoomResult(s);
    EnsuredTrackResult(s, n);
  }

  /** The track that goes when there are count tracks. */
  ghost function Oldest(s: CacheState, count: nat): set<TrackName> {
    if 0 < s.limits.maxCachedTracks <= count && s.trackLRU != [] then {s.trackLRU[|s.trackLRU| - 1]} else {}
  }

  /** Here the new track counts already when room is made for it. */
  lemma FirstFetchMakesRoom(s: CacheState, n: TrackName, h: Handle, start: Location, end: Location)
    requires Inv(s) && n !in s.tracks
    ensures FirstFetchStep(s, n, h, start, end).tracks.Keys == s.tracks.Keys - Oldest(s, |s.tracks| + 1) + {n}
  {
    hide Inv, MadeRoom, AddTrackStep, FetchStep, CanEvict;
    NewTrackStays(s, n);
    var added := AddTrackStep(s, n);
    MadeRoomResult(added);
    OneMoreTrack(s, n);
    var u := MadeRoom(added);
    FetchStepTracks(u.(trackLRU := [n] + u.trackLRU), n, h, start, end);
  }

  lemma OneMoreTrack(s: CacheState, n: TrackName)
    requires Inv(s) && n !in s.tracks
    ensures var added := AddTrackStep(s, n);
            && added.tracks.Keys == s.tracks.Keys + {n} && |added.tracks| == |s.tracks| + 1
            && added.trackLRU == s.trackLRU && n !in s.trackLRU && added.limits == s.limits
  {
    hide Inv;
    NewTrackIsEvictable(s, n);
    assert AddTrackStep(s, n).tracks.Keys == s.tracks.Keys + {n};
  }

  lemma FetchStepTracks(s: CacheState, n: TrackName, h: Handle, start: Location, end: Location)
    requires Inv(s) && n in s.tracks
    ensures FetchStep(s, n, h, start, end).tracks.Keys == s.tracks.Keys
  {
    hide Inv, OpenGroup, EnterFetch, Without;
    SetTrackLruKeepsInv(s, Without(s.trackLRU, n), n);
    OpenGroupResult(s.(trackLRU := Without(s.trackLRU, n)), n, start.group);
  }

  lemma NewTrackStays(s: CacheState, n: TrackName)
    requires Inv(s) && n !in s.tracks
    ensures Inv(AddTrackStep(s, n))
    ensures var u := MadeRoom(AddTrackStep(s, n));
            && Inv(u) && n in u.tracks && u.tracks[n] == NEW_TRACK && n !in u.trackLRU
            && CanEvict(u.tracks, u.holds.fetches, n) && Inv(u.(trackLRU := [n] + u.trackLRU))
  {
    hide Inv, MadeRoom, AddTrack;
    NewTrackIsEvictable(s, n);
    AddTrackStepKeepsInv(s, n);
    var added := AddTrackStep(s, n);
    MadeRoomResult(added);
    var u := MadeRoom(added);
    FetchesStay(added, n);
    SetTrackLruKeepsInv(u, [n] + u.trackLRU, n);
  }

  lemma FetchesStay(s: CacheState, n: TrackName)
    requires Inv(s) && n !in s.trackLRU && CanEvict(s.tracks, s.holds.fetches, n)
    ensures n !in MadeRoom(s).trackLRU && CanEvict(MadeRoom(s).tracks, MadeRoom(s).holds.fetches, n)
  {
    hide Inv, TrackBytes;
    if s.trackLRU != [] {
      OldestTrackUnused(s);
    }
  }

  /** The cursor of a fetch moves on, and its pin with it. */
  function AdvanceStep(s: CacheState, h: Handle, current: Location): CacheState
    requires Inv(s)
  {
    hide Inv, OpenThenEnter, Unpin;
    if h !in s.holds.fetches then s
    else
      var e := s.holds.fetches[h];
      FetchingTrack(s, h);
      UnpinStepKeepsInv(s, h);
      var u := s.(holds := Unpin(s.holds, h));
      if current.group <= e.key.group then s.(holds := s.holds.(fetches := s.holds.fetches[h := e.(progress := current)]))
      else if Lt(current, e.end) then OpenThenEnter(u, h, FetchEntry(e.track, current, e.end, current))
      else u
  }

  /** Updates the Largest, and if that is accepted writes the object. */
  function LargestThenWrite(s: CacheState, n: TrackName, w: Write, eot: bool): (Option<PublishError>, CacheState)
    requires Inv(s) && n in s.tracks && w.loc.group in s.tracks[n].groups
  {
    hide Inv, WriteStep, AfterLargest, ContentsOk, TrackBytes;
    var error := UpdatedLargest(s.tracks[n].largest, s.tracks[n].endOfTrack, w.loc, eot).error;
    var u := AfterLargest(s.tracks[n], w.loc, eot);
    TrackContents(s, n);
    AfterLargestContents(s.tracks[n], w.loc, eot);
    AfterLargestGroups(s.tracks[n], w.loc, eot);
    SetContentsKeepsInv(s, n, u, 0);
    if error.Some? then (error, SetContents(s, n, u, 0)) else WriteStep(SetContents(s, n, u, 0), n, w)
  }

  function HeldWrite(s: CacheState, h: Handle, w: Write): (Option<PublishError>, CacheState)
    requires Inv(s) && h in s.holds.pins && s.holds.pins[h].1 == w.loc.group
  {
    hide Inv, WriteStep;
    HeldHandle(s, h);
    WriteStep(s, s.holds.pins[h].0, w)
  }

  lemma AfterLargestGroups(t: TrackState, p: Location, eot: bool)
    ensures AfterLargest(t, p, eot).groups == t.groups
    ensures AfterLargest(t, p, eot).liveWritebackCount == t.liveWritebackCount
  {
  }

  /** No write, however much it evicts, takes a group from under a writeback. */
  lemma WriteStepResult(s: CacheState, n: TrackName, w: Write)
    requires Inv(s) && n in s.tracks && w.loc.group in s.tracks[n].groups
    ensures Inv(WriteStep(s, n, w).1)
    ensures WriteStep(s, n, w).1.holds.pins == s.holds.pins && WriteStep(s, n, w).1.holds.fetches == s.holds.fetches
    ensures WriteStep(s, n, w).1.subs == s.subs && WriteStep(s, n, w).1.limits == s.limits
  {
    hide Inv, AfterWrite, CacheObject, ContentsOk, TrackBytes, EvictForBytes, WellFormed;
    TrackContents(s, n);
    KnownIsGapOrComplete(s.tracks[n], w.loc);
    AfterWriteGroups(s.tracks[n], w);
    AfterWriteContents(s.tracks[n], w);
    var u := AfterWrite(s.tracks[n], w);
    var bytes := u.groups[w.loc.group].totalBytes - s.tracks[n].groups[w.loc.group].totalBytes;
    SetContentsKeepsInv(s, n, u, bytes);
    EvictForBytesResult(SetContents(s, n, u, bytes));
  }

  /** An accepted write is followed by eviction, down to the byte limit or to nothing but
      join points; a refused one by none. What is written to a pinned group is there. */
  lemma WriteStepMeans(s: CacheState, n: TrackName, w: Write)
    requires Inv(s) && n in s.tracks && w.loc.group in s.tracks[n].groups && WellFormed(s.tracks[n].Ix())
    ensures var (error, r) := WriteStep(s, n, w);
            var written := CacheObject(s.tracks[n].groups, s.tracks[n].Ix(), w);
            && error == written.error
            && (error.Some? ==> r.holds == s.holds && r.tracks.Keys == s.tracks.Keys && r.trackLRU == s.trackLRU)
            && (error.None? ==> s.limits.maxCachedBytes == 0 || r.totalCachedBytes <= s.limits.maxCachedBytes || RestAreJoinPoints(r, 0))
            && ((n, w.loc.group) !in s.holds.globalLRU ==>
                  && n in r.tracks && w.loc.group in r.tracks[n].groups && r.tracks[n].groups[w.loc.group] == written.group
                  && r.tracks[n].largest == s.tracks[n].largest && r.tracks[n].endOfTrack == s.tracks[n].endOfTrack)
  {
    hide Inv, CacheObject, ContentsOk, TrackBytes, EvictForBytes, WellFormed, RestAreJoinPoints, JoinPoint;
    hide OnlySpareEvicted, OldestWent, NoMoreThanNeeded, LiveEdge;
    TrackContents(s, n);
    KnownIsGapOrComplete(s.tracks[n], w.loc);
    AfterWriteGroups(s.tracks[n], w);
    AfterWriteContents(s.tracks[n], w);
    var u := AfterWrite(s.tracks[n], w);
    var bytes := u.groups[w.loc.group].totalBytes - s.tracks[n].groups[w.loc.group].totalBytes;
    SetContentsKeepsInv(s, n, u, bytes);
    var stored := SetContents(s, n, u, bytes);
    EvictForBytesResult(stored);
    if (n, w.loc.group) !in s.holds.globalLRU {
      NothingEvicted(stored);
      StaysIfPinned(stored, WriteStep(s, n, w).1, (n, w.loc.group));
    }
  }

  lemma StaysIfPinned(a: CacheState, b: CacheState, k: GroupKey)
    requires OnlySpareEvicted(a, b) && HasGroup(a.tracks, k) && k !in a.holds.globalLRU
    ensures HasGroup(b.tracks, k) && b.tracks[k.0].groups[k.1] == a.tracks[k.0].groups[k.1]
    ensures b.tracks[k.0].largest == a.tracks[k.0].largest && b.tracks[k.0].endOfTrack == a.tracks[k.0].endOfTrack
  {
    hide JoinPoint;
  }

  /** A location past the end of the track stops the write before anything changes. */
  lemma LargestComesFirst(s: CacheState, n: TrackName, w: Write, eot: bool)
    requires Inv(s) && n in s.tracks
    ensures var largest := UpdatedLargest(s.tracks[n].largest, s.tracks[n].endOfTrack, w.loc, eot);
            && (largest.error.Some? ==> LargestThenOpenThenWrite(s, n, w, eot) == (largest.error, s))
            && (largest.error.Some? && w.loc.group in s.tracks[n].groups ==> LargestThenWrite(s, n, w, eot) == (largest.error, s))
  {
    hide Inv, WriteStep, OpenThenWrite;
    assert s.tracks[n := s.tracks[n]] == s.tracks;
  }

  /** What an open subgroup sends is stored in the group that it pins. */
  lemma SubgroupObjectLands(s: CacheState, h: Handle, w: Write, eot: bool)
    requires Inv(s) && h in s.holds.pins && s.holds.pins[h].1 == w.loc.group
    ensures var n := s.holds.pins[h].0;
            n in s.tracks && w.loc.group in s.tracks[n].groups && WellFormed(s.tracks[n].Ix())
    ensures var n := s.holds.pins[h].0;
            var largest := UpdatedLargest(s.tracks[n].largest, s.tracks[n].endOfTrack, w.loc, eot);
            var written := CacheObject(s.tracks[n].groups, s.tracks[n].Ix(), w);
            var (error, r) := LargestThenWrite(s, n, w, eot);
            largest.error.None? ==>
              && error == written.error && n in r.tracks && w.loc.group in r.tracks[n].groups
              && r.tracks[n].groups[w.loc.group] == written.group
              && r.tracks[n].largest == largest.largest && r.tracks[n].endOfTrack == largest.endOfTrack
  {
    hide Inv, CacheObject, ContentsOk, TrackBytes, UpdatedLargest, WriteStep, WellFormed;
    HeldHandle(s, h);
    var n := s.holds.pins[h].0;
    TrackContents(s, n);
    KnownIsGapOrComplete(s.tracks[n], w.loc);
    AfterLargestContents(s.tracks[n], w.loc, eot);
    var t := AfterLargest(s.tracks[n], w.loc, eot);
    SetContentsKeepsInv(s, n, t, 0);
    KnownIsGapOrComplete(t, w.loc);
    PinnedIsUnlisted(s.holds, s.holds.pins[h]);
    assert t.Ix() == s.tracks[n].Ix();
    WriteStepMeans(SetContents(s, n, t, 0), n, w);
  }

  lemma PinnedIsUnlisted(d: Holds, k: GroupKey)
    requires HoldsOk(d) && k in d.pinCount && d.pinCount[k] > 0
    ensures k !in d.globalLRU
  {
  }

  /** The group exists afterwards; making room for it is part of creating it. */
  function OpenGroup(s: CacheState, n: TrackName, g: Id): CacheState
    requires Inv(s) && n in s.tracks
  {
    hide Inv, GroupEvict;
    GroupEvictResult(s, n);
    if g in s.tracks[n].groups then s else AddGroupStep(GroupEvict(s, n), n, g)
  }

  lemma OpenGroupResult(s: CacheState, n: TrackName, g: Id)
    requires Inv(s) && n in s.tracks
    ensures var r := OpenGroup(s, n, g);
            && Inv(r) && HasGroup(r.tracks, (n, g)) && n in r.holds.groupLRU && (n, g) in r.holds.pinCount
            && r.holds.pins == s.holds.pins && r.holds.fetches == s.holds.fetches
            && r.subs == s.subs && r.trackLRU == s.trackLRU && r.limits == s.limits && r.tracks.Keys == s.tracks.Keys
            && (g in s.tracks[n].groups ==> r == s)
            && (g !in s.tracks[n].groups ==>
                  && r.tracks[n].groups[g] == NEW_GROUP
                  && (s.limits.maxCachedGroupsPerTrack == 0 || |r.tracks[n].groups| <= s.limits.maxCachedGroupsPerTrack + 1
                      || r.holds.groupLRU[n] == [g]))
  {
    hide Inv, GroupEvict, OldestTrimmed;
    GroupEvictResult(s, n);
    if g !in s.tracks[n].groups {
      AddGroupPins(GroupEvict(s, n).holds, (n, g));
      AddGroupStepKeepsInv(GroupEvict(s, n), n, g);
    }
    HeldGroup(OpenGroup(s, n, g), (n, g));
  }

  function OpenThenPin(s: CacheState, n: TrackName, g: Id, h: Handle): CacheState
    requires Inv(s) && n in s.tracks
  {
    hide Inv, OpenGroup;
    OpenGroupResult(s, n, g);
    var r := OpenGroup(s, n, g);
    r.(holds := Pin(r.holds, (n, g), h))
  }

  function OpenThenWrite(s: CacheState, n: TrackName, w: Write): (Option<PublishError>, CacheState)
    requires Inv(s) && n in s.tracks
  {
    hide Inv, OpenGroup;
    OpenGroupResult(s, n, w.loc.group);
    WriteStep(OpenGroup(s, n, w.loc.group), n, w)
  }

  function OpenThenEnter(s: CacheState, h: Handle, entry: FetchEntry): CacheState
    requires Inv(s) && entry.track in s.tracks
  {
    hide Inv, OpenGroup;
    OpenGroupResult(s, entry.track, entry.key.group);
    var r := OpenGroup(s, entry.track, entry.key.group);
    r.(holds := EnterFetch(r.holds, h, entry))
  }

  function LargestThenOpenThenWrite(s: CacheState, n: TrackName, w: Write, eot: bool): (Option<PublishError>, CacheState)
    requires Inv(s) && n in s.tracks
  {
    hide Inv, OpenThenWrite, AfterLargest, ContentsOk, TrackBytes;
    var error := UpdatedLargest(s.tracks[n].largest, s.tracks[n].endOfTrack, w.loc, eot).error;
    var u := AfterLargest(s.tracks[n], w.loc, eot);
    TrackContents(s, n);
    AfterLargestContents(s.tracks[n], w.loc, eot);
    AfterLargestGroups(s.tracks[n], w.loc, eot);
    SetContentsKeepsInv(s, n, u, 0);
    if error.Some? then (error, SetContents(s, n, u, 0)) else OpenThenWrite(SetContents(s, n, u, 0), n, w)
  }

  lemma EnterFetchKeepsInv(s: CacheState, h: Handle, entry: FetchEntry)
    requires Inv(s) && h !in s.holds.pins && entry.track !in s.trackLRU
    requires HasGroup(s.tracks, (entry.track, entry.key.group))
    ensures (entry.track, entry.key.group) in s.holds.pinCount && entry.track in s.holds.groupLRU
    ensures Inv(s.(holds := EnterFetch(s.holds, h, entry)))
    ensures EnterFetch(s.holds, h, entry).pins == s.holds.pins[h := (entry.track, entry.key.group)]
    ensures EnterFetch(s.holds, h, entry).fetches == s.holds.fetches[h := entry]
  {
    var k := (entry.track, entry.key.group);
    hide Inv, HoldsOk, Pin;
    HeldGroup(s, k);
    EnterFetchKeepsOk(s.holds, h, entry);
    PinHolds(s.holds, k, h);
    SetHoldsKeepsInv(s, EnterFetch(s.holds, h, entry));
  }

  lemma FetchingTrack(s: CacheState, h: Handle)
    requires Inv(s) && h in s.holds.fetches
    ensures var e := s.holds.fetches[h];
            && h in s.holds.pins && s.holds.pins[h] == (e.track, e.key.group)
            && HasGroup(s.tracks, (e.track, e.key.group)) && e.track !in s.trackLRU
  {
    assert s.holds.pins[h] == (s.holds.fetches[h].track, s.holds.fetches[h].key.group);
    assert forall m :: m in s.trackLRU ==> CanEvict(s.tracks, s.holds.fetches, m);
  }

  lemma HoldsFromInv(s: CacheState)
    requires Inv(s)
    ensures HoldsOk(s.holds)
  {
  }

  lemma ProgressKeepsHolds(d: Holds, h: Handle, current: Location)
    requires HoldsOk(d) && h in d.fetches
    ensures HoldsOk(d.(fetches := d.fetches[h := d.fetches[h].(progress := current)]))
  {
    hide CountsOk, GlobalOk, PerTrackOk;
  }

  lemma ProgressKeepsInv(s: CacheState, h: Handle, current: Location)
    requires Inv(s) && h in s.holds.fetches
    ensures var e := s.holds.fetches[h];
            Inv(s.(holds := s.holds.(fetches := s.holds.fetches[h := e.(progress := current)])))
  {
    var d := s.holds.(fetches := s.holds.fetches[h := s.holds.fetches[h].(progress := current)]);
    hide Inv, HoldsOk;
    HoldsFromInv(s);
    ProgressKeepsHolds(s.holds, h, current);
    SetHoldsKeepsInv(s, d);
  }

  function TrackOr(cache: Tracks, n: TrackName): TrackState {
    if n in cache then cache[n] else NEW_TRACK
  }

  lemma NewTrackIsEvictable(s: CacheState, n: TrackName)
    requires Inv(s) && n !in s.tracks
    ensures n !in s.trackLRU && CanEvict(AddTrackStep(s, n).tracks, AddTrackStep(s, n).holds.fetches, n)
  {
    forall h | h in s.holds.fetches
      ensures s.holds.fetches[h].track != n
    {
      FetchingTrack(s, h);
    }
  }

  lemma LimitsAreFree(s: CacheState, limits: Limits)
    requires Inv(s)
    ensures Inv(s.(limits := limits))
  {
  }

  lemma EmptyHasNoBytes(s: CacheState)
    requires Inv(s) && s.tracks == map[]
    ensures s.totalCachedBytes == 0
  {
    assert BytesByTrack(map[]) == map[];
  }

  /** The whole group lies in one gap. */
  predicate GroupAbsent(gaps: IntervalSet, g: Id) {
    exists i :: 0 <= i < |gaps| && Within(gaps[i], GroupStart(g)) && Le(GroupEnd(g), gaps[i].last)
  }

  lemma {:induction false} FoundInOne(s: IntervalSet, p: Location) returns (i: nat)
    requires Canonical(s) && Contains(s, p)
    ensures i < |s| && s[i] == FindInterval(s, p).value
  {
    if Within(s[0], p) {
      i := 0;
    } else {
      i := FoundInOne(s[1..], p);
      i := i + 1;
    }
  }

  lemma {:induction false} OneIsIn(s: IntervalSet, i: nat, p: Location)
    requires Canonical(s) && i < |s| && Within(s[i], p)
    ensures Contains(s, p)
  {
    if i > 0 {
      OneIsIn(s[1..], i - 1, p);
    }
  }

  /** A group is taken for absent exactly when none of its positions may exist. */
  lemma GroupAbsentMeans(gaps: IntervalSet, g: Id)
    requires Canonical(gaps)
    ensures GroupAbsent(gaps, g) <==> forall p: Location :: p.group == g ==> Contains(gaps, p)
  {
    if GroupAbsent(gaps, g) {
      var i :| 0 <= i < |gaps| && Within(gaps[i], GroupStart(g)) && Le(GroupEnd(g), gaps[i].last);
      forall p: Location | p.group == g
        ensures Contains(gaps, p)
      {
        OneIsIn(gaps, i, p);
      }
    }
    if forall p: Location :: p.group == g ==> Contains(gaps, p) {
      var start := GroupStart(g);
      assert Contains(gaps, start);
      FoundIsMaximal(gaps, start);
      var i := FoundInOne(gaps, start);
      var beyond := Next(gaps[i].last);
      assert beyond.Some? && Lt(gaps[i].last, GroupEnd(g)) ==> beyond.value.group == g;
    }
  }

  lemma SubscribeKeepsInv(s: CacheState, n: TrackName, h: Handle)
    requires Inv(s) && n in s.tracks && n !in s.trackLRU && h !in s.subs
    ensures Inv(SetLive(s, n, s.tracks[n].liveWritebackCount + 1, s.subs[h := n]))
  {
    assert s.tracks[n].liveWritebackCount == |Holders(s.subs, n)|;
    forall m
      ensures |Holders(s.subs[h := n], m)| == |Holders(s.subs, m)| + (if m == n then 1 else 0)
    {
      HoldersAfterAdd(s.subs, h, n, m);
    }
    assert forall j :: j in s.subs ==> s.subs[j] in s.tracks;
    hide Inv, Holders;
    SetLiveKeepsInv(s, n, s.tracks[n].liveWritebackCount + 1, s.subs[h := n]);
  }

  lemma SubscribedIsCached(s: CacheState, h: Handle)
    requires Inv(s) && h in s.subs
    ensures s.subs[h] in s.tracks && s.tracks[s.subs[h]].liveWritebackCount > 0 && s.subs[h] !in s.trackLRU
    ensures s.tracks[s.subs[h]].liveWritebackCount == |Holders(s.subs, s.subs[h])|
  {
    assert h in Holders(s.subs, s.subs[h]);
    assert forall m :: m in s.trackLRU ==> CanEvict(s.tracks, s.holds.fetches, m);
  }

  lemma UnsubscribeKeepsInv(s: CacheState, n: TrackName, h: Handle)
    requires Inv(s) && h in s.subs && s.subs[h] == n
    ensures n in s.tracks && s.tracks[n].liveWritebackCount > 0
    ensures Inv(SetLive(s, n, s.tracks[n].liveWritebackCount - 1, s.subs - {h}))
  {
    SubscribedIsCached(s, h);
    forall m
      ensures |Holders(s.subs - {h}, m)| == |Holders(s.subs, m)| - (if m == n then 1 else 0)
    {
      HoldersAfterRemove(s.subs, h, m);
    }
    assert forall j :: j in s.subs ==> s.subs[j] in s.tracks;
    hide Inv, Holders;
    SetLiveKeepsInv(s, n, s.tracks[n].liveWritebackCount - 1, s.subs - {h});
  }

  lemma HeldGroup(s: CacheState, k: GroupKey)
    requires Inv(s) && HasGroup(s.tracks, k)
    ensures k in s.holds.pinCount && k.0 in s.holds.groupLRU && HoldsOk(s.holds)
  {
  }

  lemma PinHolds(d: Holds, k: GroupKey, h: Handle)
    requires k in d.pinCount && k.0 in d.groupLRU
    ensures Pin(d, k, h).pins == d.pins[h := k] && Pin(d, k, h).fetches == d.fetches
    ensures Pin(d, k, h).pinCount.Keys == d.pinCount.Keys && Pin(d, k, h).groupLRU.Keys == d.groupLRU.Keys
  {
  }

  lemma PinStepKeepsInv(s: CacheState, k: GroupKey, h: Handle)
    requires Inv(s) && HasGroup(s.tracks, k) && h !in s.holds.pins
    ensures k in s.holds.pinCount && k.0 in s.holds.groupLRU
    ensures Inv(s.(holds := Pin(s.holds, k, h)))
    ensures Pin(s.holds, k, h).pins == s.holds.pins[h := k]
  {
    hide Inv, HoldsOk, Pin;
    HeldGroup(s, k);
    PinKeepsOk(s.holds, k, h);
    PinHolds(s.holds, k, h);
    SetHoldsKeepsInv(s, Pin(s.holds, k, h));
  }

  lemma HeldHandle(s: CacheState, h: Handle)
    requires Inv(s) && h in s.holds.pins
    ensures var k := s.holds.pins[h];
            && k in s.holds.pinCount && s.holds.pinCount[k] > 0 && k.0 in s.holds.groupLRU
            && HasGroup(s.tracks, k) && HoldsOk(s.holds)
  {
    HeldIsPinned(s.holds, h);
  }

  lemma UnpinHolds(d: Holds, h: Handle)
    requires h in d.pins && d.pins[h] in d.pinCount && d.pinCount[d.pins[h]] > 0 && d.pins[h].0 in d.groupLRU
    ensures Unpin(d, h).pins == d.pins - {h} && Unpin(d, h).fetches == d.fetches - {h}
    ensures Unpin(d, h).pinCount.Keys == d.pinCount.Keys && Unpin(d, h).groupLRU.Keys == d.groupLRU.Keys
  {
  }

  lemma UnpinStepKeepsInv(s: CacheState, h: Handle)
    requires Inv(s) && h in s.holds.pins
    ensures var k := s.holds.pins[h];
            k in s.holds.pinCount && s.holds.pinCount[k] > 0 && k.0 in s.holds.groupLRU && HasGroup(s.tracks, k)
    ensures Inv(s.(holds := Unpin(s.holds, h)))
    ensures Unpin(s.holds, h).pins == s.holds.pins - {h}
  {
    hide Inv, HoldsOk, Unpin;
    HeldHandle(s, h);
    UnpinKeepsOk(s.holds, h);
    UnpinHolds(s.holds, h);
    SetHoldsKeepsInv(s, Unpin(s.holds, h));
  }

  lemma AddGroupPins(d: Holds, k: GroupKey)
    requires k.0 in d.groupLRU
    ensures AddGroup(d, k).pins == d.pins && AddGroup(d, k).fetches == d.fetches && k.0 in AddGroup(d, k).groupLRU
  {
  }

  lemma TrackContents(s: CacheState, n: TrackName)
    requires Inv(s) && n in s.tracks
    ensures ContentsOk(s.tracks[n])
  {
  }

  lemma ObjectBytesCovered(s: CacheState, n: TrackName, p: Location)
    requires Inv(s) && n in s.tracks && p.group in s.tracks[n].groups && p.obj in s.tracks[n].groups[p.group].objects
    requires ContentsOk(s.tracks[n])
    ensures s.tracks[n].groups[p.group].objects[p.obj].payloadSize <= s.totalCachedBytes
  {
    hide Inv;
    DropObjectConsistent(p.group, s.tracks[n].groups[p.group], p.obj);
    BytesCovered(s, n, p.group);
  }

  lemma OldestTrackUnused(s: CacheState)
    requires Inv(s) && s.trackLRU != []
    ensures CanEvict(s.tracks, s.holds.fetches, s.trackLRU[|s.trackLRU| - 1])
  {
    assert s.trackLRU[|s.trackLRU| - 1] in s.trackLRU;
  }

  lemma TracksHaveLru(s: CacheState)
    requires Inv(s)
    ensures s.holds.groupLRU.Keys == s.tracks.Keys
  {
  }

  lemma StillThere(s: CacheState, k: GroupKey)
    requires k.0 in s.tracks && k.0 in s.holds.groupLRU && CanForget(s.tracks[k.0], k.1)
    ensures k.0 in EvictGroupStep(s, k.0, k.1).tracks
  {
  }

  lemma EmptyTrackBytes(t: TrackState)
    requires t.groups == map[]
    ensures TrackBytes(t) == 0
  {
    assert GroupBytes(map[]) == map[];
  }

  /** Every group of the track in turn leaves the global LRU and the byte total;
      which one is next does not matter. */
  method EmptyTrack(n: TrackName, all: Groups, globalLRU: seq<GroupKey>) returns (bytes: nat, lru: seq<GroupKey>)
    requires forall k: GroupKey :: k in globalLRU && k.0 == n ==> k.1 in all
    ensures bytes == Total(GroupBytes(all)) && lru == Elsewhere(globalLRU, n)
  {
    var groups: Groups := all;
    bytes, lru := 0, globalLRU;
    while groups != map[]
      invariant bytes + Total(GroupBytes(groups)) == Total(GroupBytes(all))
      invariant Elsewhere(lru, n) == Elsewhere(globalLRU, n)
      invariant forall k: GroupKey :: k in lru && k.0 == n ==> k.1 in groups
      decreases |groups|
    {
      var g: Id :| g in groups;
      RemoveGroupBytes(groups, g);
      WithoutElsewhere(lru, (n, g));
      bytes := bytes + groups[g].totalBytes;
      lru := Without(lru, (n, g));
      groups := groups - {g};
    }
    assert GroupBytes(groups) == map[];
    ElsewhereOfNone(lru, n);
  }

  lemma TrackBytesMeaning(t: TrackState)
    ensures TrackBytes(t) == Total(GroupBytes(t.groups))
  {
  }

  lemma PinsAfterRemoveGroup(d: Holds, k: GroupKey)
    requires k.0 in d.groupLRU
    ensures RemoveGroup(d, k).pins == d.pins && RemoveGroup(d, k).fetches == d.fetches
  {
  }

  lemma RemoveTrackParts(s: CacheState, n: TrackName)
    ensures var d := RemoveTrack(s.holds, n);
            && d.globalLRU == Elsewhere(s.holds.globalLRU, n)
            && (forall h :: h in d.pins ==> h in s.holds.pins)
    ensures forall h :: h in SubsElsewhere(s.subs, n) ==> h in s.subs
  {
  }

  lemma TrackBytesCovered(s: CacheState, n: TrackName)
    requires Inv(s) && n in s.tracks
    ensures TrackBytes(s.tracks[n]) <= s.totalCachedBytes
  {
    BytesAfterReplace(s.tracks, n, s.tracks[n]);
  }

  lemma ListedHaveGroups(s: CacheState, n: TrackName)
    requires Inv(s) && n in s.tracks
    ensures forall k: GroupKey :: k in s.holds.globalLRU && k.0 == n ==> k.1 in s.tracks[n].groups
  {
    assert forall k: GroupKey :: k in s.holds.globalLRU ==> HasGroup(s.tracks, k);
  }

  lemma RemoveGroupBytes(groups: Groups, g: Id)
    requires g in groups
    ensures Total(GroupBytes(groups)) == groups[g].totalBytes + Total(GroupBytes(groups - {g}))
  {
    assert GroupBytes(groups - {g}) == GroupBytes(groups) - {g};
    TotalSplit<Id>(GroupBytes(groups), g);
  }

  lemma {:induction false} WithoutElsewhere(lru: seq<GroupKey>, k: GroupKey)
    ensures Elsewhere(Without(lru, k), k.0) == Elsewhere(lru, k.0)
  {
    if lru != [] {
      WithoutElsewhere(lru[1..], k);
    }
  }
}
