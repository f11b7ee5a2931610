/** The invariant of the whole cache and the elementary changes that keep it. */
module CacheInvariant {
  import opened Locations
  import opened IntervalSets
  import opened MapTotals
  import opened TrackModel
  import opened CacheTracks
  import opened GroupHolds

  type Tracks = map<TrackName, TrackState>
  type Subs = map<Handle, TrackName>

  /** A limit of zero means unlimited. */
  datatype Limits = Limits(
    maxCachedTracks: nat,
    maxCachedGroupsPerTrack: nat,
    maxCachedBytes: nat,
    minEvictionBytes: nat,
    defaultMaxCacheDuration: Option<nat>)

  /** `subs` has the track of each open subscription whose track is cached. */
  datatype CacheState = CacheState(
    tracks: Tracks,
    holds: Holds,
    trackLRU: seq<TrackName>,
    totalCachedBytes: int,
    subs: Subs,
    limits: Limits)

  function EmptyCache(limits: Limits): CacheState {
    CacheState(map[], NO_HOLDS, [], 0, map[], limits)
  }

  // --- Bytes -----------------------------------------------------------------

  ghost function GroupBytes(groups: Groups): map<Id, nat> {
    map g | g in groups :: groups[g].totalBytes
  }

  ghost function TrackBytes(t: TrackState): nat {
    Total(GroupBytes(t.groups))
  }

  ghost function BytesByTrack(tracks: Tracks): map<TrackName, nat> {
    map n | n in tracks :: TrackBytes(tracks[n])
  }

  /** The sum of the payload sizes of every object reachable from the cache. */
  ghost function CachedBytes(tracks: Tracks): nat {
    Total(BytesByTrack(tracks))
  }

  lemma BytesAfterReplace(tracks: Tracks, n: TrackName, u: TrackState)
    requires n in tracks
    ensures CachedBytes(tracks[n := u]) == CachedBytes(tracks) - TrackBytes(tracks[n]) + TrackBytes(u)
    ensures TrackBytes(tracks[n]) <= CachedBytes(tracks)
  {
    assert BytesByTrack(tracks[n := u]) == BytesByTrack(tracks)[n := TrackBytes(u)];
    TotalSet(BytesByTrack(tracks), n, TrackBytes(u));
    TotalSplit(BytesByTrack(tracks), n);
  }

  lemma BytesAfterAddTrack(tracks: Tracks, n: TrackName)
    requires n !in tracks
    ensures CachedBytes(tracks[n := NEW_TRACK]) == CachedBytes(tracks)
  {
    assert GroupBytes(NEW_TRACK.groups) == map[];
    assert BytesByTrack(tracks[n := NEW_TRACK]) == BytesByTrack(tracks)[n := 0];
    TotalSet(BytesByTrack(tracks), n, 0);
  }

  lemma BytesAfterDrop(tracks: Tracks, n: TrackName)
    requires n in tracks
    ensures CachedBytes(tracks - {n}) == CachedBytes(tracks) - TrackBytes(tracks[n])
  {
    assert BytesByTrack(tracks - {n}) == BytesByTrack(tracks) - {n};
    TotalSplit(BytesByTrack(tracks), n);
  }

  lemma GroupBytesBound(t: TrackState, g: Id)
    requires g in t.groups
    ensures t.groups[g].totalBytes <= TrackBytes(t)
  {
    TotalSplit<Id>(GroupBytes(t.groups), g);
  }

  // --- The invariant -----------------------------------------------------------

  /** The index, the byte counts and the marks of one track. */
  ghost predicate ContentsOk(t: TrackState) {
    && Sound(t.Ix(), t.groups) && |t.gaps| <= MAX_GAP_INTERVALS
    && (forall g :: g in t.groups ==> GroupConsistent(g, t.groups[g]))
    && (t.endOfTrack ==> t.largest.Some?)
  }

  ghost predicate AllTracks(tracks: Tracks, ok: TrackState -> bool) {
    forall n :: n in tracks ==> ok(tracks[n])
  }

  predicate HasGroup(tracks: Tracks, k: GroupKey) {
    k.0 in tracks && k.1 in tracks[k.0].groups
  }

  /** Holds are kept for exactly the groups that are cached. */
  ghost predicate Linked(tracks: Tracks, holds: Holds) {
    && holds.groupLRU.Keys == tracks.Keys
    && (forall k: GroupKey :: k in holds.pinCount <==> HasGroup(tracks, k))
  }

  /** Not live, and no fetch is writing it. */
  predicate CanEvict(tracks: Tracks, fetches: map<Handle, FetchEntry>, n: TrackName) {
    n in tracks && tracks[n].liveWritebackCount == 0 && forall h :: h in fetches ==> fetches[h].track != n
  }

  /** Only tracks that nothing is using wait for eviction. */
  ghost predicate TrackLruOk(tracks: Tracks, fetches: map<Handle, FetchEntry>, trackLRU: seq<TrackName>) {
    NoRepeats(trackLRU) && forall n :: n in trackLRU ==> CanEvict(tracks, fetches, n)
  }

  /** A track's live count is the number of its open subscriptions. */
  ghost predicate SubsOk(tracks: Tracks, subs: Subs) {
    && (forall n :: n in tracks ==> tracks[n].liveWritebackCount == |Holders(subs, n)|)
    && (forall h :: h in subs ==> subs[h] in tracks)
  }

  ghost predicate Inv(s: CacheState) {
    && AllTracks(s.tracks, ContentsOk)
    && HoldsOk(s.holds) && Linked(s.tracks, s.holds)
    && TrackLruOk(s.tracks, s.holds.fetches, s.trackLRU)
    && SubsOk(s.tracks, s.subs)
    && s.totalCachedBytes == CachedBytes(s.tracks)
  }

  lemma EmptyCacheOk(limits: Limits)
    ensures Inv(EmptyCache(limits))
  {
    assert BytesByTrack(map[]) == map[];
  }

  /** The byte total never underflows when a group or track is subtracted. */
  lemma BytesCovered(s: CacheState, n: TrackName, g: Id)
    requires Inv(s) && n in s.tracks && g in s.tracks[n].groups
    ensures s.tracks[n].groups[g].totalBytes <= s.totalCachedBytes
  {
    GroupBytesBound(s.tracks[n], g);
    BytesAfterReplace(s.tracks, n, s.tracks[n]);
  }

  // --- One part of the invariant at a time -----------------------------------------

  lemma AllTracksSet(tracks: Tracks, n: TrackName, u: TrackState, ok: TrackState -> bool)
    requires AllTracks(tracks, ok) && ok(u)
    ensures AllTracks(tracks[n := u], ok)
  {
  }

  lemma LinkedSet(tracks: Tracks, holds: Holds, n: TrackName, u: TrackState)
    requires Linked(tracks, holds) && n in tracks && u.groups.Keys == tracks[n].groups.Keys
    ensures Linked(tracks[n := u], holds)
  {
    assert forall k: GroupKey :: HasGroup(tracks[n := u], k) <==> HasGroup(tracks, k);
  }

  lemma TrackLruSet(tracks: Tracks, fetches: map<Handle, FetchEntry>, lru: seq<TrackName>, n: TrackName, u: TrackState)
    requires n in lru ==> u.liveWritebackCount == 0
    requires TrackLruOk(tracks, fetches, lru)
    ensures TrackLruOk(tracks[n := u], fetches, lru)
  {
    assert forall m :: m in lru ==> CanEvict(tracks, fetches, m);
    assert forall m :: m in lru && CanEvict(tracks, fetches, m) ==> CanEvict(tracks[n := u], fetches, m);
  }

  lemma SubsSet(tracks: Tracks, subs: Subs, n: TrackName, u: TrackState)
    requires SubsOk(tracks, subs) && n in tracks && u.liveWritebackCount == tracks[n].liveWritebackCount
    ensures SubsOk(tracks[n := u], subs)
  {
  }

  /** Everything but the groups' holds, when one track changes and stays as live
      as it was. */
  lemma SetTrackParts(s: CacheState, n: TrackName, u: TrackState)
    requires Inv(s) && n in s.tracks && ContentsOk(u) && u.liveWritebackCount == s.tracks[n].liveWritebackCount
    ensures AllTracks(s.tracks[n := u], ContentsOk) && SubsOk(s.tracks[n := u], s.subs)
    ensures TrackLruOk(s.tracks[n := u], s.holds.fetches, s.trackLRU)
    ensures CachedBytes(s.tracks[n := u]) == s.totalCachedBytes - TrackBytes(s.tracks[n]) + TrackBytes(u)
  {
    assert n in s.trackLRU ==> u.liveWritebackCount == 0 by {
      if n in s.trackLRU {
        assert CanEvict(s.tracks, s.holds.fetches, n);
      }
    }
    hide HoldsOk, Linked, TrackLruOk, SubsOk, AllTracks, ContentsOk, CachedBytes, TrackBytes;
    AllTracksSet(s.tracks, n, u, ContentsOk);
    SubsSet(s.tracks, s.subs, n, u);
    TrackLruSet(s.tracks, s.holds.fetches, s.trackLRU, n, u);
    BytesAfterReplace(s.tracks, n, u);
  }

  // --- Changes to one track --------------------------------------------------------

  /** A track's objects, index or marks change; the groups it has do not. */
  function SetContents(s: CacheState, n: TrackName, u: TrackState, bytes: int): CacheState {
    s.(tracks := s.tracks[n := u], totalCachedBytes := s.totalCachedBytes + bytes)
  }

  lemma SetContentsKeepsInv(s: CacheState, n: TrackName, u: TrackState, bytes: int)
    requires Inv(s) && n in s.tracks && ContentsOk(u)
    requires u.groups.Keys == s.tracks[n].groups.Keys && u.liveWritebackCount == s.tracks[n].liveWritebackCount
    requires bytes == TrackBytes(u) - TrackBytes(s.tracks[n])
    ensures Inv(SetContents(s, n, u, bytes))
  {
    hide HoldsOk, Linked, TrackLruOk, SubsOk, AllTracks, ContentsOk, CachedBytes, TrackBytes;
    SetTrackParts(s, n, u);
    LinkedSet(s.tracks, s.holds, n, u);
  }

  function WithGroup(t: TrackState, g: Id): TrackState {
    t.(groups := t.groups[g := NEW_GROUP])
  }

  lemma EmptyGroupSound(ix: Index, groups: Groups, g: Id)
    requires Sound(ix, groups) && g !in groups
    ensures Sound(ix, groups[g := NEW_GROUP])
  {
    assert forall p: Location :: CompleteAt(groups, p) ==> CompleteAt(groups[g := NEW_GROUP], p);
  }

  lemma EmptyGroupBytes(groups: Groups, g: Id)
    requires g !in groups
    ensures Total(GroupBytes(groups[g := NEW_GROUP])) == Total(GroupBytes(groups))
    ensures GroupConsistent(g, NEW_GROUP)
  {
    assert GroupBytes(groups[g := NEW_GROUP]) == GroupBytes(groups)[g := 0];
    TotalSet<Id>(GroupBytes(groups), g, 0);
    assert Sizes(NEW_GROUP.objects) == map[];
  }

  lemma WithGroupContents(t: TrackState, g: Id)
    requires ContentsOk(t) && g !in t.groups
    ensures ContentsOk(WithGroup(t, g)) && TrackBytes(WithGroup(t, g)) == TrackBytes(t)
  {
    hide Sound, GroupConsistent, GroupBytes;
    EmptyGroupSound(t.Ix(), t.groups, g);
    EmptyGroupBytes(t.groups, g);
  }

  /** A group is created, evictable at first. */
  function AddGroupStep(s: CacheState, n: TrackName, g: Id): CacheState
    requires n in s.tracks && n in s.holds.groupLRU
  {
    s.(tracks := s.tracks[n := WithGroup(s.tracks[n], g)], holds := AddGroup(s.holds, (n, g)))
  }

  lemma NotHeldYet(tracks: Tracks, holds: Holds, n: TrackName, g: Id)
    requires Linked(tracks, holds) && n in tracks && g !in tracks[n].groups
    ensures (n, g) !in holds.pinCount && n in holds.groupLRU
  {
    assert !HasGroup(tracks, (n, g));
  }

  lemma LinkedAfterAddGroup(tracks: Tracks, holds: Holds, n: TrackName, g: Id)
    requires Linked(tracks, holds) && n in tracks
    ensures n in holds.groupLRU && Linked(tracks[n := WithGroup(tracks[n], g)], AddGroup(holds, (n, g)))
    ensures AddGroup(holds, (n, g)).fetches == holds.fetches
    ensures WithGroup(tracks[n], g).liveWritebackCount == tracks[n].liveWritebackCount
  {
    var after := tracks[n := WithGroup(tracks[n], g)];
    forall k: GroupKey
      ensures HasGroup(after, k) <==> HasGroup(tracks, k) || k == (n, g)
    {
    }
  }

  lemma AddGroupStepKeepsInv(s: CacheState, n: TrackName, g: Id)
    requires Inv(s) && n in s.tracks && g !in s.tracks[n].groups
    ensures Inv(AddGroupStep(s, n, g))
  {
    assert ContentsOk(s.tracks[n]);
    NotHeldYet(s.tracks, s.holds, n, g);
    hide AddGroup, WithGroup, HoldsOk, Linked, TrackLruOk, SubsOk, AllTracks, ContentsOk, CachedBytes, TrackBytes;
    WithGroupContents(s.tracks[n], g);
    AddGroupKeepsOk(s.holds, (n, g));
    SetTrackParts(s, n, WithGroup(s.tracks[n], g));
    LinkedAfterAddGroup(s.tracks, s.holds, n, g);
  }

  // --- Eviction ------------------------------------------------------------------------

  lemma SoundWithoutGroup(ix: Index, groups: Groups, g: Id)
    requires Sound(ix, groups) && g in groups
    requires forall p: Location :: Contains(ix.content, p) ==> !Within(Interval(GroupStart(g), GroupEnd(g)), p)
    ensures Sound(ix, groups - {g})
  {
    hide Contains;
    assert forall p: Location :: p.group == g ==> Within(Interval(GroupStart(g), GroupEnd(g)), p);
  }

  lemma ForgottenIsSound(t: TrackState, g: Id)
    requires CanForget(t, g) && Sound(t.Ix(), t.groups)
    ensures Sound(ForgottenIndex(t, g), t.groups - {g}) && |ForgottenIndex(t, g).gaps| <= MAX_GAP_INTERVALS
  {
    hide Sound, WithoutRange, Contains;
    var own := Interval(GroupStart(g), GroupEnd(g));
    WithoutRangeIsSound(t.Ix(), own, t.groups);
    var ix := WithoutRange(t.Ix(), own);
    SoundWithoutGroup(ix, t.groups, g);
    var seen := t.groups[g].seenPriorGroupIdGap;
    if seen.Some? && seen.value > 0 {
      WithoutRangeIsSound(ix, Interval(GroupStart(g - seen.value), GroupEnd(g - 1)), t.groups - {g});
    }
  }

  /** Nothing of the group is known any more, nor of the groups that it said were skipped. */
  lemma ForgottenMeans(t: TrackState, g: Id, p: Location)
    requires CanForget(t, g) && Sound(t.Ix(), t.groups)
    ensures var ix, skipped := ForgottenIndex(t, g), t.groups[g].seenPriorGroupIdGap;
            Contains(ix.content, p) || Contains(ix.gaps, p) ==>
              && p.group != g && !(skipped.Some? && p.group < g <= p.group + skipped.value)
              && (Contains(ix.content, p) ==> Contains(t.cachedContent, p)) && (Contains(ix.gaps, p) ==> Contains(t.gaps, p))
  {
    hide Sound, WithoutRange, Contains;
    var own := Interval(GroupStart(g), GroupEnd(g));
    WithoutAt(t.Ix(), own, t.groups, p);
    var ix := WithoutRange(t.Ix(), own);
    assert p.group == g ==> Within(own, p);
    var seen := t.groups[g].seenPriorGroupIdGap;
    if seen.Some? && seen.value > 0 {
      var before := Interval(GroupStart(g - seen.value), GroupEnd(g - 1));
      WithoutAt(ix, before, t.groups, p);
      assert p.group < g <= p.group + seen.value ==> Within(before, p);
    }
  }

  lemma WithoutAt(ix: Index, i: Interval, groups: Groups, p: Location)
    requires Sound(ix, groups) && Le(i.first, i.last)
    ensures var r := WithoutRange(ix, i);
            && Sound(r, groups)
            && (Contains(r.content, p) ==> Contains(ix.content, p) && !Within(i, p))
            && (Contains(r.gaps, p) ==> Contains(ix.gaps, p) && !Within(i, p))
  {
    WithoutRangeIsSound(ix, i, groups);
  }

  lemma EvictedContents(t: TrackState, g: Id)
    requires ContentsOk(t) && g in t.groups
    ensures CanForget(t, g) && ContentsOk(Evicted(t, g))
    ensures TrackBytes(Evicted(t, g)) == TrackBytes(t) - t.groups[g].totalBytes
  {
    ForgottenIsSound(t, g);
    assert GroupBytes(t.groups - {g}) == GroupBytes(t.groups) - {g};
    TotalSplit<Id>(GroupBytes(t.groups), g);
    assert Evicted(t, g).Ix() == ForgottenIndex(t, g);
  }

  function EvictGroupStep(s: CacheState, n: TrackName, g: Id): CacheState
    requires n in s.tracks && n in s.holds.groupLRU && CanForget(s.tracks[n], g)
  {
    s.(tracks := s.tracks[n := Evicted(s.tracks[n], g)],
       holds := RemoveGroup(s.holds, (n, g)),
       totalCachedBytes := s.totalCachedBytes - s.tracks[n].groups[g].totalBytes)
  }

  lemma LinkedAfterEvict(tracks: Tracks, holds: Holds, n: TrackName, g: Id)
    requires Linked(tracks, holds) && n in tracks && CanForget(tracks[n], g)
    ensures n in holds.groupLRU && Linked(tracks[n := Evicted(tracks[n], g)], RemoveGroup(holds, (n, g)))
    ensures RemoveGroup(holds, (n, g)).fetches == holds.fetches
    ensures Evicted(tracks[n], g).liveWritebackCount == tracks[n].liveWritebackCount
  {
    assert forall k: GroupKey :: HasGroup(tracks[n := Evicted(tracks[n], g)], k) <==> HasGroup(tracks, k) && k != (n, g);
  }

  /** Evicting a group that nothing pins. */
  lemma EvictGroupStepKeepsInv(s: CacheState, n: TrackName, g: Id)
    requires Inv(s) && n in s.tracks && (n, g) in s.holds.globalLRU
    ensures g in s.tracks[n].groups && CanForget(s.tracks[n], g)
    ensures Inv(EvictGroupStep(s, n, g))
  {
    assert HasGroup(s.tracks, (n, g)) && n in s.holds.groupLRU;
    assert (n, g) in s.holds.pinCount && s.holds.pinCount[(n, g)] == 0;
    assert ContentsOk(s.tracks[n]);
    hide RemoveGroup, Evicted, HoldsOk, Linked, TrackLruOk, SubsOk, AllTracks, ContentsOk, CachedBytes, TrackBytes;
    EvictedContents(s.tracks[n], g);
    RemoveGroupKeepsOk(s.holds, (n, g));
    LinkedAfterEvict(s.tracks, s.holds, n, g);
    SetTrackParts(s, n, Evicted(s.tracks[n], g));
  }

  // --- Tracks come and go ----------------------------------------------------------------

  function AddTrackStep(s: CacheState, n: TrackName): CacheState {
    s.(tracks := s.tracks[n := NEW_TRACK], holds := AddTrack(s.holds, n))
  }

  lemma NewTrackParts(s: CacheState, n: TrackName)
    requires AllTracks(s.tracks, ContentsOk) && SubsOk(s.tracks, s.subs) && n !in s.tracks
    requires TrackLruOk(s.tracks, s.holds.fetches, s.trackLRU)
    ensures AllTracks(s.tracks[n := NEW_TRACK], ContentsOk) && SubsOk(s.tracks[n := NEW_TRACK], s.subs)
    ensures TrackLruOk(s.tracks[n := NEW_TRACK], s.holds.fetches, s.trackLRU)
  {
    assert ContentsOk(NEW_TRACK);
    AllTracksSet(s.tracks, n, NEW_TRACK, ContentsOk);
    TrackLruSet(s.tracks, s.holds.fetches, s.trackLRU, n, NEW_TRACK);
    assert Holders(s.subs, n) == {};
  }

  lemma LinkedAfterAddTrack(tracks: Tracks, holds: Holds, n: TrackName)
    requires Linked(tracks, holds) && n !in tracks
    ensures Linked(tracks[n := NEW_TRACK], AddTrack(holds, n)) && AddTrack(holds, n).fetches == holds.fetches
  {
    assert forall k: GroupKey :: HasGroup(tracks[n := NEW_TRACK], k) <==> HasGroup(tracks, k);
  }

  lemma AddTrackStepKeepsInv(s: CacheState, n: TrackName)
    requires Inv(s) && n !in s.tracks
    ensures Inv(AddTrackStep(s, n))
  {
    assert n !in s.holds.groupLRU;
    hide AddTrack, HoldsOk, Linked, TrackLruOk, SubsOk, AllTracks, ContentsOk, CachedBytes, TrackBytes;
    NewTrackParts(s, n);
    AddTrackKeepsOk(s.holds, n);
    LinkedAfterAddTrack(s.tracks, s.holds, n);
    BytesAfterAddTrack(s.tracks, n);
  }

  function SubsElsewhere(subs: Subs, n: TrackName): Subs {
    map h | h in subs && subs[h] != n :: subs[h]
  }

  /** A whole track goes, live and pinned or not. */
  function DropTrackStep(s: CacheState, n: TrackName, bytes: nat): CacheState {
    s.(tracks := s.tracks - {n}, holds := RemoveTrack(s.holds, n), trackLRU := Without(s.trackLRU, n),
       totalCachedBytes := s.totalCachedBytes - bytes, subs := SubsElsewhere(s.subs, n))
  }

  lemma SubsAfterDrop(tracks: Tracks, subs: Subs, n: TrackName)
    requires SubsOk(tracks, subs)
    ensures SubsOk(tracks - {n}, SubsElsewhere(subs, n))
  {
    forall m | m in tracks && m != n
      ensures Holders(SubsElsewhere(subs, n), m) == Holders(subs, m)
    {
    }
  }

  lemma LinkedAfterDrop(tracks: Tracks, holds: Holds, n: TrackName)
    requires Linked(tracks, holds)
    ensures Linked(tracks - {n}, RemoveTrack(holds, n))
  {
    assert forall k: GroupKey :: HasGroup(tracks - {n}, k) <==> HasGroup(tracks, k) && k.0 != n;
  }

  lemma TrackLruAfterDrop(tracks: Tracks, holds: Holds, lru: seq<TrackName>, n: TrackName)
    requires TrackLruOk(tracks, holds.fetches, lru)
    ensures TrackLruOk(tracks - {n}, RemoveTrack(holds, n).fetches, Without(lru, n))
  {
    WithoutKeepsNoRepeats(lru, n);
    forall m | m in Without(lru, n)
      ensures CanEvict(tracks - {n}, RemoveTrack(holds, n).fetches, m)
    {
      assert CanEvict(tracks, holds.fetches, m);
    }
  }

  lemma DropTrackStepKeepsInv(s: CacheState, n: TrackName, bytes: nat)
    requires Inv(s) && n in s.tracks && bytes == TrackBytes(s.tracks[n])
    ensures Inv(DropTrackStep(s, n, bytes))
  {
    hide HoldsOk, Linked, SubsOk, ContentsOk, CachedBytes, TrackBytes, RemoveTrack, TrackLruOk;
    TrackLruAfterDrop(s.tracks, s.holds, s.trackLRU, n);
    RemoveTrackKeepsOk(s.holds, n);
    SubsAfterDrop(s.tracks, s.subs, n);
    LinkedAfterDrop(s.tracks, s.holds, n);
    BytesAfterDrop(s.tracks, n);
  }

  // --- Holds, subscriptions and the track LRU ----------------------------------------------

  lemma SameKeysLinked(tracks: Tracks, before: Holds, after: Holds)
    requires Linked(tracks, before)
    requires after.pinCount.Keys == before.pinCount.Keys && after.groupLRU.Keys == before.groupLRU.Keys
    ensures Linked(tracks, after)
  {
    assert forall k: GroupKey :: k in after.pinCount <==> k in before.pinCount;
  }

  lemma TrackLruAfterHolds(tracks: Tracks, before: map<Handle, FetchEntry>, after: map<Handle, FetchEntry>, lru: seq<TrackName>)
    requires TrackLruOk(tracks, before, lru)
    requires forall h :: h in after ==>
               after[h].track !in lru || (h in before && before[h].track == after[h].track)
    ensures TrackLruOk(tracks, after, lru)
  {
    assert forall m :: m in lru ==> CanEvict(tracks, before, m);
  }

  /** Pins move; groups and in-progress tracks may only be joined by one that is
      not waiting for eviction. */
  lemma SetHoldsKeepsInv(s: CacheState, holds: Holds)
    requires Inv(s) && HoldsOk(holds)
    requires holds.pinCount.Keys == s.holds.pinCount.Keys && holds.groupLRU.Keys == s.holds.groupLRU.Keys
    requires forall h :: h in holds.fetches ==>
               holds.fetches[h].track !in s.trackLRU || (h in s.holds.fetches && s.holds.fetches[h].track == holds.fetches[h].track)
    ensures Inv(s.(holds := holds))
  {
    hide HoldsOk, ContentsOk, CachedBytes, SubsOk, Linked, TrackLruOk;
    SameKeysLinked(s.tracks, s.holds, holds);
    TrackLruAfterHolds(s.tracks, s.holds.fetches, holds.fetches, s.trackLRU);
  }

  lemma SetTrackLruKeepsInv(s: CacheState, trackLRU: seq<TrackName>, n: TrackName)
    requires Inv(s)
    requires || trackLRU == Without(s.trackLRU, n)
             || (n !in s.trackLRU && CanEvict(s.tracks, s.holds.fetches, n) && trackLRU == [n] + s.trackLRU)
    ensures Inv(s.(trackLRU := trackLRU))
  {
    hide HoldsOk, ContentsOk, CachedBytes, SubsOk;
    WithoutKeepsNoRepeats(s.trackLRU, n);
  }

  function SetLive(s: CacheState, n: TrackName, live: nat, subs: Subs): CacheState
    requires n in s.tracks
  {
    s.(tracks := s.tracks[n := s.tracks[n].(liveWritebackCount := live)], subs := subs)
  }

  lemma LiveIsNotContents(t: TrackState, live: nat)
    requires ContentsOk(t)
    ensures ContentsOk(t.(liveWritebackCount := live)) && TrackBytes(t.(liveWritebackCount := live)) == TrackBytes(t)
  {
    assert t.(liveWritebackCount := live).Ix() == t.Ix();
  }

  lemma SubsAfterSetLive(tracks: Tracks, before: Subs, n: TrackName, u: TrackState, after: Subs)
    requires SubsOk(tracks, before) && n in tracks && u.liveWritebackCount == |Holders(after, n)|
    requires forall m :: m in tracks && m != n ==> |Holders(after, m)| == |Holders(before, m)|
    requires forall h :: h in after ==> after[h] in tracks
    ensures SubsOk(tracks[n := u], after)
  {
  }

  lemma SetLiveKeepsInv(s: CacheState, n: TrackName, live: nat, subs: Subs)
    requires Inv(s) && n in s.tracks && n !in s.trackLRU
    requires live == |Holders(subs, n)|
    requires forall m :: m in s.tracks && m != n ==> |Holders(subs, m)| == |Holders(s.subs, m)|
    requires forall h :: h in subs ==> subs[h] in s.tracks
    ensures Inv(SetLive(s, n, live, subs))
  {
    var u := s.tracks[n].(liveWritebackCount := live);
    assert ContentsOk(s.tracks[n]);
    hide HoldsOk, Linked, TrackLruOk, SubsOk, AllTracks, ContentsOk, CachedBytes, TrackBytes, Holders;
    LiveIsNotContents(s.tracks[n], live);
    SubsAfterSetLive(s.tracks, s.subs, n, u, subs);
    AllTracksSet(s.tracks, n, u, ContentsOk);
    TrackLruSet(s.tracks, s.holds.fetches, s.trackLRU, n, u);
    LinkedSet(s.tracks, s.holds, n, u);
    BytesAfterReplace(s.tracks, n, u);
  }
}
