/** The mutable CacheTrack: gaps, index and objects are updated in place. Each
    method is tied to the value-level step it performs in TrackModel. */
module CacheTracks {
  import opened Locations
  import opened IntervalSets
  import opened Names
  import opened TrackModel

  type TrackName = FullTrackName

  /** What a track holds. Pins, LRU positions and in-progress fetches, which
      decide what may be evicted, are kept together in Holds. */
  datatype TrackState = TrackState(
    groups: Groups,
    gaps: IntervalSet,
    cachedContent: IntervalSet,
    liveWritebackCount: nat,
    endOfTrack: bool,
    largest: Option<Location>,
    maxCacheDuration: Option<nat>,
    lastWrite: int)
  {
    /** The group of the Largest Object while the track is being published. */
    predicate IsJoinPoint(group: Id) {
      liveWritebackCount > 0 && largest.Some? && largest.value.group == group
    }

    /** A duration of zero means that objects pass through uncached. */
    predicate ShouldSkipCaching() {
      maxCacheDuration == Some(0)
    }

    function Ix(): Index {
      Index(gaps, cachedContent)
    }
  }

  const NEW_TRACK := TrackState(map[], [], [], 0, false, None, None, 0)

  datatype Largest = Largest(error: Option<PublishError>, largest: Option<Location>, endOfTrack: bool)

  /** The high-water mark and end flag after seeing `current`. */
  function UpdatedLargest(largest: Option<Location>, endOfTrack: bool, current: Location, eot: bool): (r: Largest)
    ensures r.error.Some? ==> r.largest == largest && r.endOfTrack == endOfTrack
    ensures r.error.None? ==> r.largest.Some? && Le(current, r.largest.value) && (largest.Some? ==> Le(largest.value, r.largest.value))
    ensures endOfTrack && largest.Some? ==> r.largest == largest && r.endOfTrack
    ensures r.error.None? && eot ==> r.endOfTrack && r.largest == Some(current)
    ensures r.error.None? && !eot ==> r.endOfTrack == endOfTrack
    ensures r.error.None? ==> r.largest == Some(current) || r.largest == largest
    ensures r.error.Some? <==>
            || (endOfTrack && (largest.None? || Lt(largest.value, current)))
            || (eot && largest.Some? && Lt(current, largest.value))
  {
    if largest.None? || Lt(largest.value, current) then
      if endOfTrack then Largest(Some(PastEndOfTrack), largest, endOfTrack)
      else Largest(None, Some(current), eot)
    else if eot then
      if current != largest.value then Largest(Some(PastEndOfTrack), largest, endOfTrack)
      else Largest(None, largest, true)
    else Largest(None, largest, endOfTrack)
  }

  datatype FetchOkEnd = FetchOkEnd(endLocation: Location, endOfTrack: bool)

  /** The End Location a cached FETCH is answered with. */
  function FetchOkEndFor(t: TrackState, start: Location, exclusiveEnd: Location): FetchOkEnd {
    if t.largest.None? then FetchOkEnd(exclusiveEnd, false)
    else
      var trackEnd := if Next(t.largest.value).Some? then Next(t.largest.value).value else LAST;
      if Lt(exclusiveEnd, trackEnd) then FetchOkEnd(exclusiveEnd, false)
      else if Le(trackEnd, start) then FetchOkEnd(start, false)
      else if !t.endOfTrack && t.liveWritebackCount == 0 then FetchOkEnd(exclusiveEnd, false)
      else FetchOkEnd(trackEnd, t.endOfTrack)
  }

  /** The End Location stays between the fetch start and the requested end; it
      reports the end of the track exactly when the range reaches past the last
      object of an ended track. It promises everything asked for up to the Largest
      Object; on a live or ended track nothing beyond it, and on any other track that
      has reached the start the whole range. */
  lemma FetchOkEndBounds(t: TrackState, start: Location, exclusiveEnd: Location)
    requires Lt(start, exclusiveEnd) && (t.endOfTrack ==> t.largest.Some?)
    ensures var ok := FetchOkEndFor(t, start, exclusiveEnd);
            && Le(start, ok.endLocation) && Le(ok.endLocation, exclusiveEnd)
            && (ok.endOfTrack <==>
                && t.endOfTrack && Le(start, t.largest.value)
                && (Lt(t.largest.value, exclusiveEnd) || t.largest.value == exclusiveEnd == LAST))
            && (forall p: Location ::
                  Le(start, p) && Lt(p, ok.endLocation) && t.largest.Some? && (t.endOfTrack || t.liveWritebackCount > 0)
                  ==> Le(p, t.largest.value))
            && (forall p: Location ::
                  Le(start, p) && Lt(p, exclusiveEnd) && (t.largest.None? || Le(p, t.largest.value))
                  ==> Lt(p, ok.endLocation))
            && (!t.endOfTrack && t.liveWritebackCount == 0 && (t.largest.None? || Le(start, t.largest.value)) ==>
                  ok.endLocation == exclusiveEnd)
  {
  }

  predicate CanForget(t: TrackState, g: Id) {
    && g in t.groups && WellFormed(t.Ix())
    && (t.groups[g].seenPriorGroupIdGap.Some? ==> t.groups[g].seenPriorGroupIdGap.value <= g)
  }

  /** The index forgets the group, and the groups its Prior Group ID Gap ruled
      out: those have no group of their own to be evicted with. */
  function ForgottenIndex(t: TrackState, g: Id): (ix: Index)
    requires CanForget(t, g)
    ensures WellFormed(ix)
  {
    var ix := WithoutRange(t.Ix(), Interval(GroupStart(g), GroupEnd(g)));
    var seen := t.groups[g].seenPriorGroupIdGap;
    if seen.Some? && seen.value > 0 then WithoutRange(ix, Interval(GroupStart(g - seen.value), GroupEnd(g - 1))) else ix
  }

  function Evicted(t: TrackState, g: Id): TrackState
    requires CanForget(t, g)
  {
    t.(groups := t.groups - {g}, gaps := ForgottenIndex(t, g).gaps, cachedContent := ForgottenIndex(t, g).content)
  }

  class CacheTrack {
    var groups: Groups
    var gaps: IntervalSet
    var cachedContent: IntervalSet
    var liveWritebackCount: nat
    var endOfTrack: bool
    var largest: Option<Location>
    var maxCacheDuration: Option<nat>
    var lastWrite: int

    function State(): TrackState
      reads this
    {
      TrackState(groups, gaps, cachedContent, liveWritebackCount, endOfTrack, largest, maxCacheDuration, lastWrite)
    }

    constructor (t: TrackState)
      ensures State() == t
    {
      groups, gaps, cachedContent := t.groups, t.gaps, t.cachedContent;
      liveWritebackCount, endOfTrack, largest := t.liveWritebackCount, t.endOfTrack, t.largest;
      maxCacheDuration, lastWrite := t.maxCacheDuration, t.lastWrite;
    }

    method EnforceGapLimit()
      requires WellFormed(State().Ix())
      modifies this`gaps, this`cachedContent
      ensures State().Ix() == Enforced(old(State().Ix()))
    {
      while |gaps| > MAX_GAP_INTERVALS
        invariant WellFormed(State().Ix())
        invariant Enforced(State().Ix()) == Enforced(old(State().Ix()))
      {
        var lowest := gaps[0];
        gaps := gaps[1..];
        cachedContent := Remove(cachedContent, lowest.first, lowest.last);
      }
    }

    method InsertGap(first: Location, last: Location)
      requires WellFormed(State().Ix()) && Le(first, last)
      modifies this`gaps, this`cachedContent
      ensures State().Ix() == WithGap(old(State().Ix()), Interval(first, last))
    {
      gaps := Insert(gaps, first, last);
      cachedContent := Insert(cachedContent, first, last);
      EnforceGapLimit();
    }

    method ForgetRange(first: Location, last: Location)
      requires WellFormed(State().Ix()) && Le(first, last)
      modifies this`gaps, this`cachedContent
      ensures State().Ix() == WithoutRange(old(State().Ix()), Interval(first, last))
    {
      gaps := Remove(gaps, first, last);
      cachedContent := Remove(cachedContent, first, last);
      EnforceGapLimit();
    }

    /** A group leaves with what the index knows because of it. */
    method DropGroup(g: Id)
      requires CanForget(State(), g)
      modifies this`groups, this`gaps, this`cachedContent
      ensures State() == Evicted(old(State()), g)
    {
      hide WithoutRange;
      ForgetRange(GroupStart(g), GroupEnd(g));
      var seen := groups[g].seenPriorGroupIdGap;
      if seen.Some? && seen.value > 0 {
        ForgetRange(GroupStart(g - seen.value), GroupEnd(g - 1));
      }
      groups := groups - {g};
    }

    method UpdateLargest(current: Location, eot: bool) returns (error: Option<PublishError>)
      modifies this`largest, this`endOfTrack
      ensures UpdatedLargest(old(largest), old(endOfTrack), current, eot) == Largest(error, largest, endOfTrack)
    {
      if largest.None? || Lt(largest.value, current) {
        if endOfTrack {
          return Some(PastEndOfTrack);
        }
        endOfTrack := eot;
        largest := Some(current);
      } else if eot {
        if current != largest.value {
          return Some(PastEndOfTrack);
        }
        endOfTrack := true;
      }
      return None;
    }

    /** Prior Group ID Gap: the groups just below this one do not exist. */
    method ProcessPriorGroupGap(loc: Location, ext: Extensions) returns (error: Option<PublishError>)
      requires loc.group in groups && WellFormed(State().Ix())
      modifies this`groups, this`gaps, this`cachedContent
      ensures var step := PriorGroupStep(old(groups), loc, ext);
              var ix := WithGaps(old(State().Ix()), step.ranges);
              && error == step.error
              && groups == old(groups)[loc.group := old(groups)[loc.group].(seenPriorGroupIdGap := step.seen)]
              && State().Ix() == ix
    {
      hide WithGap, Canonical;
      assert groups[loc.group := groups[loc.group].(seenPriorGroupIdGap := groups[loc.group].seenPriorGroupIdGap)] == groups;
      if ext.priorGroupIdGap.None? {
        return None;
      }
      var gap := ext.priorGroupIdGap.value;
      if gap > loc.group {
        return Some(PriorGroupGapTooLarge);
      }
      var seen := groups[loc.group].seenPriorGroupIdGap;
      if seen.Some? {
        return if seen.value != gap then Some(PriorGroupGapInconsistent) else None;
      }
      ghost var before := groups;
      groups := groups[loc.group := groups[loc.group].(seenPriorGroupIdGap := Some(gap))];
      if gap > 0 {
        for g := loc.group - CheckCount(gap) to loc.group
          invariant forall k :: loc.group - CheckCount(gap) <= k < g && k in before ==> before[k].objects == map[]
        {
          if g in groups && groups[g].objects != map[] {
            assert GroupGapConflict(before, loc.group, gap);
            return Some(PriorGroupGapCoversObject);
          }
        }
        assert !GroupGapConflict(before, loc.group, gap);
        InsertGap(GroupStart(loc.group - gap), GroupEnd(loc.group - 1));
      }
      return None;
    }

    /** Prior Object ID Gap: the objects just below this one do not exist. */
    method ProcessPriorObjectGap(loc: Location, ext: Extensions) returns (error: Option<PublishError>)
      requires loc.group in groups && WellFormed(State().Ix())
      modifies this`gaps, this`cachedContent
      ensures var step := PriorObjectStep(groups[loc.group], loc, ext);
              error == step.error && State().Ix() == WithGaps(old(State().Ix()), step.ranges)
    {
      hide WithGap, Canonical;
      if ext.priorObjectIdGap.None? {
        return None;
      }
      var gap := ext.priorObjectIdGap.value;
      if gap > loc.obj {
        return Some(PriorObjectGapTooLarge);
      }
      if gap > 0 {
        var objects := groups[loc.group].objects;
        for o := loc.obj - CheckCount(gap) to loc.obj
          invariant forall k :: loc.obj - CheckCount(gap) <= k < o ==> k !in objects
        {
          if o in objects {
            return Some(PriorObjectGapCoversObject);
          }
        }
        InsertGap(Position(loc.group, loc.obj - gap), Position(loc.group, loc.obj - 1));
      }
      return None;
    }

    /** One whole or chunked write into a group of this track. */
    method CacheObject(w: Write) returns (error: Option<PublishError>)
      requires w.loc.group in groups && WellFormed(State().Ix())
      modifies this`groups, this`gaps, this`cachedContent
      ensures var r := TrackModel.CacheObject(old(groups), old(State().Ix()), w);
              && error == r.error
              && groups == old(groups)[w.loc.group := r.group] && State().Ix() == r.index
    {
      error := NoteGaps(w);
      if error.Some? {
        return;
      }
      error := StoreObject(w);
    }

    method NoteGaps(w: Write) returns (error: Option<PublishError>)
      requires w.loc.group in groups && WellFormed(State().Ix())
      modifies this`groups, this`gaps, this`cachedContent
      ensures var r := TrackModel.NoteGaps(old(groups), old(State().Ix()), w);
              && error == r.error
              && groups == old(groups)[w.loc.group := r.group] && State().Ix() == r.index
    {
      var group := w.loc.group;
      assert groups[group := groups[group]] == groups;
      if Contains(gaps, w.loc) {
        return Some(ObjectInKnownGap);
      }
      ghost var ix := State().Ix();
      ghost var before := PriorGroupStep(groups, w.loc, w.extensions);
      ghost var group1 := groups[group].(seenPriorGroupIdGap := before.seen);
      error := ProcessPriorGroupGap(w.loc, w.extensions);
      if error.Some? {
        return;
      }
      ghost var ix1 := WithGaps(ix, before.ranges);
      assert State().Ix() == ix1 && groups[group] == group1;
      error := ProcessPriorObjectGap(w.loc, w.extensions);
      if error.Some? {
        return;
      }
      if !w.status.Normal? {
        InsertEndGaps(w.loc, w.status);
        groups := groups[group := groups[group].(endOfGroup := true)];
      }
    }

    method InsertEndGaps(loc: Location, status: ObjectStatus)
      requires WellFormed(State().Ix()) && !status.Normal?
      modifies this`gaps, this`cachedContent
      ensures State().Ix() == WithGaps(old(State().Ix()), EndRanges(loc, status))
    {
      var next := NextInGroup(loc);
      ghost var rest := if status.EndOfTrack? && NextGroup(loc).Some? then [Interval(NextGroup(loc).value, LAST)] else [];
      assert next.Some? ==> EndRanges(loc, status)[1..] == rest;
      if next.Some? {
        InsertGap(next.value, GroupEnd(loc.group));
      }
      assert WithGaps(State().Ix(), rest) == WithGaps(old(State().Ix()), EndRanges(loc, status));
      if status.EndOfTrack? {
        var nextGroup := NextGroup(loc);
        if nextGroup.Some? {
          InsertGap(nextGroup.value, LAST);
        }
      }
    }

    /** Stores the object, or what a further copy adds to it, and indexes it once it is
        whole. */
    method StoreObject(w: Write) returns (error: Option<PublishError>)
      requires w.loc.group in groups && WellFormed(State().Ix())
      modifies this`groups, this`cachedContent
      ensures var r := StoreInGroup(old(groups)[w.loc.group], old(State().Ix()), w);
              && error == r.error
              && groups == old(groups)[w.loc.group := r.group] && State().Ix() == r.index
    {
      hide StoreEntry, Canonical;
      var group := groups[w.loc.group];
      assert groups[w.loc.group := group] == groups;
      FirstCopy(w);
      var size := |BytesOf(w.payload)|;
      if w.loc.obj !in group.objects {
        if w.offset > 0 {
          return None;
        }
        group := group.(objects := group.objects[w.loc.obj := NewEntry(w)], totalBytes := group.totalBytes + size);
      } else {
        var entry := group.objects[w.loc.obj];
        var merged := MergeCopy(entry, w);
        if merged.Reject? {
          return Some(merged.error);
        }
        var grown := merged.entry.value.payloadSize - entry.payloadSize;
        group := group.(objects := group.objects[w.loc.obj := merged.entry.value], totalBytes := group.totalBytes + grown);
        if !merged.settled {
          groups := groups[w.loc.group := group];
          return None;
        }
      }
      if w.complete {
        cachedContent := Insert(cachedContent, w.loc, w.loc);
      }
      if w.loc.obj >= group.maxCachedObject {
        group := group.(maxCachedObject := w.loc.obj);
      }
      groups := groups[w.loc.group := group];
      return None;
    }
  }

  lemma FirstCopy(w: Write)
    ensures StoreEntry(None, w) == if w.offset > 0 then Keep(None, false) else Keep(Some(NewEntry(w)), true)
  {
  }

  lemma PayloadSize(w: Write)
    ensures w.payload.Some? ==> |BytesOf(w.payload)| == |w.payload.value|
  {
  }

  /** Checks a further copy against the cached object, and extends the cached bytes by
      what the copy has beyond them. */
  method MergeCopy(cached: CacheEntry, w: Write) returns (r: Stored)
    ensures r == StoreEntry(Some(cached), w)
    ensures r.Keep? ==> r.entry.Some? && r.entry.value.payloadSize >= cached.payloadSize
  {
    hide BytesOf;
    PayloadSize(w);
    if w.status != cached.status {
      return Reject(StatusChanged);
    }
    var size := |BytesOf(w.payload)|;
    if w.status.Normal? && w.offset == 0 && w.complete && cached.complete {
      if w.payload.Some? != cached.payload.Some? || (w.payload.Some? && size != cached.payloadSize) {
        return Reject(PayloadMismatch);
      }
    }
    if cached.datagram != w.datagram {
      return Reject(ForwardingPreferenceMismatch);
    }
    var entry := cached;
    if w.offset == 0 {
      entry := entry.(extensions := w.extensions, cachedAt := w.now);
    }
    assert entry == Refreshed(cached, w);
    if entry.complete {
      return Keep(Some(entry), false);
    }
    var frontier, end := entry.payloadSize, w.offset + size;
    if w.offset <= frontier && end > frontier {
      var tail := BytesOf(w.payload)[frontier - w.offset..];
      entry := entry.(payload := Some(BytesOf(entry.payload) + tail), payloadSize := end);
    }
    assert entry == Grown(Refreshed(cached, w), w);
    if !w.complete || entry.payloadSize != end {
      return Keep(Some(entry), false);
    }
    return Keep(Some(entry.(complete := true)), true);
  }
}
