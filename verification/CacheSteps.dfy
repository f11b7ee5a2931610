/** What single cache operations do to the contents of one track. */
module CacheSteps {
  import opened Locations
  import opened IntervalSets
  import opened MapTotals
  import opened TrackModel
  import opened CacheTracks
  import opened CacheInvariant

  // --- Writing an object -------------------------------------------------------

  function AfterWrite(t: TrackState, w: Write): TrackState
    requires w.loc.group in t.groups && WellFormed(t.Ix())
  {
    var r := CacheObject(t.groups, t.Ix(), w);
    t.(groups := t.groups[w.loc.group := r.group], gaps := r.index.gaps, cachedContent := r.index.content,
       lastWrite := if r.error.None? then w.now else t.lastWrite)
  }

  lemma AfterWriteGroups(t: TrackState, w: Write)
    requires w.loc.group in t.groups && WellFormed(t.Ix())
    ensures AfterWrite(t, w).groups.Keys == t.groups.Keys
    ensures AfterWrite(t, w).liveWritebackCount == t.liveWritebackCount
  {
    hide CacheObject;
  }

  lemma ReplaceGroupBytes(groups: Groups, g: Id, group: CacheGroup)
    requires g in groups
    ensures Total(GroupBytes(groups[g := group])) == Total(GroupBytes(groups)) + group.totalBytes - groups[g].totalBytes
  {
    assert GroupBytes(groups[g := group]) == GroupBytes(groups)[g := group.totalBytes];
    TotalSet<Id>(GroupBytes(groups), g, group.totalBytes);
  }

  /** A write, accepted or rejected, keeps the track's index sound and its byte
      counts exact. A rejected write adds no bytes. */
  lemma AfterWriteContents(t: TrackState, w: Write)
    requires ContentsOk(t) && w.loc.group in t.groups
    ensures ContentsOk(AfterWrite(t, w))
    ensures TrackBytes(AfterWrite(t, w)) ==
            TrackBytes(t) + AfterWrite(t, w).groups[w.loc.group].totalBytes - t.groups[w.loc.group].totalBytes
    ensures CacheObject(t.groups, t.Ix(), w).error.Some? ==> TrackBytes(AfterWrite(t, w)) == TrackBytes(t)
    ensures AfterWrite(t, w).groups[w.loc.group].totalBytes >= t.groups[w.loc.group].totalBytes
  {
    assert WellFormed(t.Ix());
    hide CacheObject, Sound, GroupConsistent, GroupBytes;
    CacheObjectSound(t.groups, t.Ix(), w);
    CacheObjectConsistent(t.groups, t.Ix(), w);
    ReplaceGroupBytes(t.groups, w.loc.group, CacheObject(t.groups, t.Ix(), w).group);
    assert AfterWrite(t, w).Ix() == CacheObject(t.groups, t.Ix(), w).index;
  }

  // --- Expiry ----------------------------------------------------------------------

  /** Durations and ages are in the same unit; a track's own limit wins. */
  predicate Expired(t: TrackState, limits: Limits, e: CacheEntry, now: int) {
    var duration := if t.maxCacheDuration.Some? then t.maxCacheDuration else limits.defaultMaxCacheDuration;
    duration.Some? && now - e.cachedAt > duration.value
  }

  function WithoutObject(t: TrackState, p: Location): TrackState
    requires p.group in t.groups && p.obj in t.groups[p.group].objects && WellFormed(t.Ix())
    requires t.groups[p.group].totalBytes >= t.groups[p.group].objects[p.obj].payloadSize
  {
    var g := t.groups[p.group];
    var rest := g.(objects := g.objects - {p.obj}, totalBytes := g.totalBytes - g.objects[p.obj].payloadSize);
    t.(groups := t.groups[p.group := rest], cachedContent := Remove(t.cachedContent, p, p))
  }

  lemma DropObjectConsistent(id: Id, g: CacheGroup, o: Id)
    requires GroupConsistent(id, g) && o in g.objects
    ensures g.totalBytes >= g.objects[o].payloadSize
    ensures GroupConsistent(id, g.(objects := g.objects - {o}, totalBytes := g.totalBytes - g.objects[o].payloadSize))
  {
    assert Sizes(g.objects - {o}) == Sizes(g.objects) - {o};
    TotalSplit<Id>(Sizes(g.objects), o);
  }

  lemma DropObjectSound(ix: Index, groups: Groups, p: Location, rest: CacheGroup)
    requires Sound(ix, groups) && p.group in groups && rest.objects == groups[p.group].objects - {p.obj}
    ensures Sound(Index(ix.gaps, Remove(ix.content, p, p)), groups[p.group := rest])
  {
    RemoveMeaning(ix.content, p, p);
    assert Within(Interval(p, p), p);
    assert forall q: Location :: q != p && CompleteAt(groups, q) ==> CompleteAt(groups[p.group := rest], q);
  }

  /** A track stays consistent if one group and the index change together. */
  lemma ContentsAfterGroup(t: TrackState, g: Id, group: CacheGroup, content: IntervalSet)
    requires ContentsOk(t) && g in t.groups && GroupConsistent(g, group)
    requires Sound(Index(t.gaps, content), t.groups[g := group])
    ensures var u := t.(groups := t.groups[g := group], cachedContent := content);
            ContentsOk(u) && TrackBytes(u) == TrackBytes(t) + group.totalBytes - t.groups[g].totalBytes
  {
    hide Sound, GroupConsistent, GroupBytes;
    var u := t.(groups := t.groups[g := group], cachedContent := content);
    assert u.Ix() == Index(t.gaps, content);
    ReplaceGroupBytes(t.groups, g, group);
  }

  lemma WithoutObjectContents(t: TrackState, p: Location)
    requires ContentsOk(t) && p.group in t.groups && p.obj in t.groups[p.group].objects
    ensures t.groups[p.group].totalBytes >= t.groups[p.group].objects[p.obj].payloadSize && WellFormed(t.Ix())
    ensures ContentsOk(WithoutObject(t, p))
    ensures TrackBytes(WithoutObject(t, p)) == TrackBytes(t) - t.groups[p.group].objects[p.obj].payloadSize
    ensures !Contains(WithoutObject(t, p).cachedContent, p)
  {
    hide ContentsOk, TrackBytes;
    KnownIsGapOrComplete(t, p);
    GroupIsConsistent(t, p.group);
    DropObjectConsistent(p.group, t.groups[p.group], p.obj);
    var u := WithoutObject(t, p);
    DropObjectSound(t.Ix(), t.groups, p, u.groups[p.group]);
    ContentsAfterGroup(t, p.group, u.groups[p.group], u.cachedContent);
    RemoveMeaning(t.cachedContent, p, p);
  }

  lemma GroupIsConsistent(t: TrackState, g: Id)
    requires ContentsOk(t) && g in t.groups
    ensures GroupConsistent(g, t.groups[g]) && Sound(t.Ix(), t.groups)
  {
  }

  function EntryAt(t: TrackState, p: Location): Option<CacheEntry> {
    if p.group in t.groups then Lookup(t.groups[p.group].objects, p.obj) else None
  }

  function ExpiredBytes(t: TrackState, limits: Limits, p: Location, now: int): nat {
    var e := EntryAt(t, p);
    if e.Some? && Expired(t, limits, e.value, now) then e.value.payloadSize else 0
  }

  /** A complete object that has not expired. */
  predicate Fresh(t: TrackState, limits: Limits, p: Location, now: int) {
    var e := EntryAt(t, p);
    e.Some? && e.value.complete && !Expired(t, limits, e.value, now)
  }

  /** An object is served as long as it is no older than the track's own limit, or the
      default if the track has none; without either it does not age. */
  lemma FreshExactly(t: TrackState, limits: Limits, p: Location, now: int)
    ensures Fresh(t, limits, p, now) <==>
            && EntryAt(t, p).Some? && EntryAt(t, p).value.complete
            && (t.maxCacheDuration.Some? ==> now <= EntryAt(t, p).value.cachedAt + t.maxCacheDuration.value)
            && (t.maxCacheDuration.None? && limits.defaultMaxCacheDuration.Some? ==>
                  now <= EntryAt(t, p).value.cachedAt + limits.defaultMaxCacheDuration.value)
  {
  }

  /** A hit is a fresh object; looking at an expired one drops it. */
  function TrackLookup(t: TrackState, limits: Limits, p: Location, now: int): (Option<CacheEntry>, TrackState)
    requires ContentsOk(t)
  {
    hide ContentsOk, TrackBytes;
    var e := EntryAt(t, p);
    if e.None? then (None, t)
    else
      WithoutObjectContents(t, p);
      if Expired(t, limits, e.value, now) then (None, WithoutObject(t, p))
      else (if e.value.complete then e else None, t)
  }

  lemma KnownIsGapOrComplete(t: TrackState, p: Location)
    requires ContentsOk(t)
    ensures WellFormed(t.Ix())
    ensures Contains(t.cachedContent, p) ==> Contains(t.gaps, p) || CompleteAt(t.groups, p)
  {
  }

  /** After a miss the index claims the position only if it is a gap, so a walk
      over the index always gets past a miss. */
  lemma TrackLookupContents(t: TrackState, limits: Limits, p: Location, now: int)
    requires ContentsOk(t)
    ensures var (hit, u) := TrackLookup(t, limits, p, now);
            && ContentsOk(u) && TrackBytes(u) == TrackBytes(t) - ExpiredBytes(t, limits, p, now)
            && u.gaps == t.gaps && u.groups.Keys == t.groups.Keys && u.liveWritebackCount == t.liveWritebackCount
            && (hit.None? && Contains(u.cachedContent, p) ==> Contains(u.gaps, p))
            && (hit.Some? <==> Fresh(t, limits, p, now)) && (hit.Some? ==> hit == EntryAt(t, p) && u == t)
  {
    hide ContentsOk, TrackBytes;
    KnownIsGapOrComplete(t, p);
    if EntryAt(t, p).Some? {
      WithoutObjectContents(t, p);
    }
  }

  // --- Marks and gaps ------------------------------------------------------------------

  function AfterLargest(t: TrackState, current: Location, eot: bool): TrackState {
    var r := UpdatedLargest(t.largest, t.endOfTrack, current, eot);
    t.(largest := r.largest, endOfTrack := r.endOfTrack)
  }

  function AfterGap(t: TrackState, i: Interval): TrackState
    requires WellFormed(t.Ix()) && Le(i.first, i.last)
  {
    t.(gaps := WithGap(t.Ix(), i).gaps, cachedContent := WithGap(t.Ix(), i).content)
  }

  lemma AfterLargestContents(t: TrackState, current: Location, eot: bool)
    requires ContentsOk(t)
    ensures ContentsOk(AfterLargest(t, current, eot)) && TrackBytes(AfterLargest(t, current, eot)) == TrackBytes(t)
  {
    assert AfterLargest(t, current, eot).Ix() == t.Ix();
  }

  lemma AfterGapContents(t: TrackState, i: Interval)
    requires ContentsOk(t) && Le(i.first, i.last)
    ensures ContentsOk(AfterGap(t, i)) && TrackBytes(AfterGap(t, i)) == TrackBytes(t)
  {
    WithGapIsSound(t.Ix(), i, t.groups);
    assert AfterGap(t, i).Ix() == WithGap(t.Ix(), i);
  }

  /** A duration or a write time changes neither index nor bytes. */
  lemma AfterDurationContents(t: TrackState, duration: Option<nat>)
    requires ContentsOk(t)
    ensures ContentsOk(t.(maxCacheDuration := duration)) && TrackBytes(t.(maxCacheDuration := duration)) == TrackBytes(t)
  {
    assert t.(maxCacheDuration := duration).Ix() == t.Ix();
  }
}
