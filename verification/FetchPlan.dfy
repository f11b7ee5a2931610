/** A FETCH over a cached track, oldest first: the range is walked once and split
    into objects served from the cache, upstream requests, and positions known
    not to exist. The cache does not change under the walk except that objects
    found expired are dropped; no other fetch is in progress. */
module FetchPlan {
  import opened Locations
  import opened IntervalSets
  import opened RangeAlgebra
  import opened TrackModel
  import opened CacheTracks
  import opened CacheInvariant
  import opened CacheSteps

  datatype Event = Publish(loc: Location) | Upstream(span: Span)

  predicate Covers(e: Event, p: Location) {
    match e
    case Publish(loc) => p == loc
    case Upstream(span) => InSpan(span, p)
  }

  predicate Covered(events: seq<Event>, p: Location) {
    exists i :: 0 <= i < |events| && Covers(events[i], p)
  }

  /** A gap, past the end of its group, or past the end of the track. */
  predicate KnownAbsent(t: TrackState, p: Location) {
    || Contains(t.gaps, p)
    || (p.group in t.groups && t.groups[p.group].endOfGroup && p.obj > t.groups[p.group].maxCachedObject)
    || PastEnd(t, p)
  }

  predicate PastEnd(t: TrackState, p: Location) {
    t.endOfTrack && t.largest.Some? && Lt(t.largest.value, p)
  }

  /** The walk need not ask upstream about this position. */
  predicate Known(t: TrackState, limits: Limits, p: Location, now: int) {
    Fresh(t, limits, p, now) || Contains(t.gaps, p) || PastEnd(t, p)
  }

  /** An object the index leads to, with nothing that says it does not exist. */
  predicate MustServe(t: TrackState, limits: Limits, p: Location, now: int) {
    Fresh(t, limits, p, now) && Contains(t.cachedContent, p) && !KnownAbsent(t, p)
  }

  /** A position that the index knows, with a fresh object or a gap, and where no expired
      object makes the index forget it. */
  predicate Boundary(t: TrackState, limits: Limits, p: Location, now: int) {
    Contains(t.cachedContent, p) && (Fresh(t, limits, p, now) || (Contains(t.gaps, p) && EntryAt(t, p).None?))
  }

  // --- The cursor ------------------------------------------------------------------

  /** How far objects are stepped through before the next group. */
  function FindGroupEndMaybe(t: TrackState, g: Id, max: Location): Option<nat> {
    if g == max.group then Some(max.obj)
    else if g !in t.groups then None
    else
      var top := t.groups[g].maxCachedObject;
      Some(if t.groups[g].endOfGroup || top >= LIMIT then top else top + 1)
  }

  function AdvanceOne(t: TrackState, current: Location, end: Location, max: Location): (r: Location)
    requires Lt(current, end) && Le(end, max)
  {
    var groupEnd := FindGroupEndMaybe(t, current.group, max);
    if groupEnd.Some? && current.obj < groupEnd.value && current.obj < LIMIT then Position(current.group, current.obj + 1)
    else if current.group == max.group then end
    else Position(current.group + 1, 0)
  }

  /** From a hit, a single step skips nothing that might exist. It goes to the next
      object of the group, or on to the next group from the last object of a group that
      has ended; in the group where the range ends, the range alone decides. */
  lemma AdvanceOneSkipsAbsent(t: TrackState, current: Location, max: Location)
    requires Lt(current, max) && current.group in t.groups && current.obj in t.groups[current.group].objects
    requires GroupConsistent(current.group, t.groups[current.group])
    ensures var r := AdvanceOne(t, current, max, max);
            && Lt(current, r) && Le(r, max)
            && (forall p: Location :: Lt(current, p) && Lt(p, r) ==> KnownAbsent(t, p))
            && r == if && current.group < max.group
                       && (current.obj == LIMIT || (t.groups[current.group].endOfGroup && current.obj == t.groups[current.group].maxCachedObject))
                    then GroupStart(current.group + 1) else Position(current.group, current.obj + 1)
  {
  }

  /** Past the gap at the cursor, if there is one, but not past the end. */
  method SkipGaps(gaps: IntervalSet, start: Location, end: Location) returns (current: Location)
    requires Canonical(gaps) && Le(start, end)
    ensures Le(start, current) && Le(current, end)
    ensures forall p: Location :: Le(start, p) && Lt(p, current) ==> Contains(gaps, p)
    ensures current == end || !Contains(gaps, current)
  {
    current := start;
    while Contains(gaps, current)
      invariant Le(start, current) && Le(current, end)
      invariant forall p: Location :: Le(start, p) && Lt(p, current) ==> Contains(gaps, p)
      decreases Distance(current, end) + 1
    {
      var gap := FindInterval(gaps, current).value;
      FoundIsMaximal(gaps, current);
      var afterGap := Next(gap.last);
      if afterGap.Some? && Lt(afterGap.value, end) {
        CloserToEnd(current, afterGap.value, end);
        current := afterGap.value;
      } else {
        return end;
      }
    }
  }

  lemma CloserToEnd(a: Location, b: Location, end: Location)
    requires Lt(a, b)
    ensures Distance(b, end) < Distance(a, end)
    ensures Le(b, end) ==> Distance(b, end) >= 0
  {
  }

  /** To the next position the index knows about, or to the end. */
  function SkipUncached(content: IntervalSet, current: Location, end: Location): (r: Location)
    requires Canonical(content)
  {
    if current == end || Contains(content, current) then current
    else
      var next := FindNextInterval(content, current);
      if next.None? || Le(end, next.value.first) then end else next.value.first
  }

  // --- The walk ---------------------------------------------------------------------

  /** Events come in ascending order and never overlap; all lie in the range below
      `bound`. */
  ghost predicate Ascending(events: seq<Event>, bound: Location) {
    && (forall i, j, p: Location, q: Location ::
          0 <= i < j < |events| && Covers(events[i], p) && Covers(events[j], q) ==> Lt(p, q))
    && (forall p: Location :: Covered(events, p) ==> Lt(p, bound))
  }

  lemma CoveredAppend(events: seq<Event>, e: Event)
    ensures forall p: Location :: Covered(events + [e], p) <==> Covered(events, p) || Covers(e, p)
  {
    forall p: Location
      ensures Covered(events + [e], p) <==> Covered(events, p) || Covers(e, p)
    {
      if Covered(events, p) {
        var i :| 0 <= i < |events| && Covers(events[i], p);
        assert Covers((events + [e])[i], p);
      }
      if Covers(e, p) {
        assert Covers((events + [e])[|events|], p);
      }
    }
  }

  lemma AscendingAppend(events: seq<Event>, e: Event, bound: Location, above: Location)
    requires Ascending(events, bound)
    requires forall p: Location :: Covers(e, p) ==> Le(bound, p) && Lt(p, above)
    requires Le(bound, above)
    ensures Ascending(events + [e], above)
  {
    CoveredAppend(events, e);
    forall i, j, p: Location, q: Location | 0 <= i < j < |events + [e]| && Covers((events + [e])[i], p) && Covers((events + [e])[j], q)
      ensures Lt(p, q)
    {
      if j == |events| {
        assert Covered(events, p);
      }
    }
  }

  /** The objects the walk has found expired are gone from u; nothing else is. */
  ghost predicate SameButExpired(t: TrackState, u: TrackState, limits: Limits, now: int) {
    && u.gaps == t.gaps && u.endOfTrack == t.endOfTrack && u.largest == t.largest && u.maxCacheDuration == t.maxCacheDuration
    && u.groups.Keys == t.groups.Keys
    && (forall g :: g in t.groups ==>
          u.groups[g].endOfGroup == t.groups[g].endOfGroup && u.groups[g].maxCachedObject == t.groups[g].maxCachedObject)
    && (forall p: Location :: Fresh(u, limits, p, now) <==> Fresh(t, limits, p, now))
    && (forall p: Location :: KnownAbsent(u, p) <==> KnownAbsent(t, p))
    && (forall p: Location :: MustServe(t, limits, p, now) ==> MustServe(u, limits, p, now))
    && (forall p: Location :: Boundary(t, limits, p, now) ==> Boundary(u, limits, p, now))
  }

  lemma SameCompose(t: TrackState, u: TrackState, v: TrackState, limits: Limits, now: int)
    requires SameButExpired(t, u, limits, now) && SameButExpired(u, v, limits, now)
    ensures SameButExpired(t, v, limits, now)
  {
    hide Fresh, KnownAbsent, MustServe, Boundary;
  }

  lemma HitAfterDrop(u: TrackState, limits: Limits, p: Location, now: int, q: Location)
    requires WellFormed(u.Ix()) && EntryAt(u, p).Some? && Expired(u, limits, EntryAt(u, p).value, now)
    requires u.groups[p.group].totalBytes >= u.groups[p.group].objects[p.obj].payloadSize
    ensures Fresh(WithoutObject(u, p), limits, q, now) <==> Fresh(u, limits, q, now)
    ensures KnownAbsent(WithoutObject(u, p), q) <==> KnownAbsent(u, q)
    ensures Fresh(u, limits, q, now) ==> q != p
    ensures EntryAt(u, q).None? ==> EntryAt(WithoutObject(u, p), q).None? && q != p
  {
    var v := WithoutObject(u, p);
    assert q != p ==> EntryAt(v, q) == EntryAt(u, q);
  }

  lemma DropExpired(u: TrackState, limits: Limits, p: Location, now: int)
    requires ContentsOk(u) && EntryAt(u, p).Some? && Expired(u, limits, EntryAt(u, p).value, now)
    ensures WellFormed(u.Ix()) && u.groups[p.group].totalBytes >= u.groups[p.group].objects[p.obj].payloadSize
    ensures SameButExpired(u, WithoutObject(u, p), limits, now)
  {
    hide ContentsOk, TrackBytes, Fresh, KnownAbsent;
    WithoutObjectContents(u, p);
    var v := WithoutObject(u, p);
    forall q: Location
      ensures Fresh(v, limits, q, now) <==> Fresh(u, limits, q, now)
      ensures KnownAbsent(v, q) <==> KnownAbsent(u, q)
      ensures MustServe(u, limits, q, now) ==> MustServe(v, limits, q, now)
      ensures Boundary(u, limits, q, now) ==> Boundary(v, limits, q, now)
    {
      HitAfterDrop(u, limits, p, now, q);
      RemoveAt(u.cachedContent, p, p, q);
    }
  }

  lemma LookupKeepsSame(t: TrackState, u: TrackState, limits: Limits, p: Location, now: int)
    requires ContentsOk(u) && SameButExpired(t, u, limits, now)
    ensures var (hit, v) := TrackLookup(u, limits, p, now);
            SameButExpired(t, v, limits, now) && (hit.Some? <==> Fresh(u, limits, p, now)) && (hit.Some? ==> v == u)
  {
    hide ContentsOk, SameButExpired;
    if EntryAt(u, p).Some? && Expired(u, limits, EntryAt(u, p).value, now) {
      DropExpired(u, limits, p, now);
      SameCompose(t, u, WithoutObject(u, p), limits, now);
    }
  }

  /** Only fresh objects are published, and a request starts where nothing is known. */
  ghost predicate Justified(events: seq<Event>, range: Span, t: TrackState, limits: Limits, now: int) {
    && (forall i :: 0 <= i < |events| && events[i].Publish? ==> Fresh(t, limits, events[i].loc, now))
    && (forall i :: 0 <= i < |events| && events[i].Upstream? ==>
          InSpan(range, events[i].span.first) && !Known(t, limits, events[i].span.first, now))
  }

  /** No request runs across a boundary of the index, unless past the end of the track.
      From `miss` on, a request is still to come. */
  ghost predicate Tight(
    t: TrackState, limits: Limits, now: int, events: seq<Event>, miss: Option<Location>, current: Location)
  {
    && (forall i, p: Location :: 0 <= i < |events| && events[i].Upstream? && InSpan(events[i].span, p) ==>
          !Boundary(t, limits, p, now) || PastEnd(t, p))
    && (miss.Some? ==> forall p: Location :: Le(miss.value, p) && Lt(p, current) ==> !Boundary(t, limits, p, now))
  }

  lemma MissIsTight(
    t: TrackState, limits: Limits, now: int, events: seq<Event>, miss: Option<Location>, current: Location, next: Location)
    requires Tight(t, limits, now, events, miss, current)
    requires forall p: Location :: Le(current, p) && Lt(p, next) ==> !Boundary(t, limits, p, now)
    ensures Tight(t, limits, now, events, Some(Bound(miss, current)), next)
  {
    hide Boundary;
  }

  lemma RequestIsTight(
    t: TrackState, limits: Limits, now: int, events: seq<Event>, miss: Location, current: Location, span: Span)
    requires Tight(t, limits, now, events, Some(miss), current) && span.first == miss
    requires forall p: Location :: Le(current, p) && Lt(p, span.end) ==> PastEnd(t, p)
    ensures Tight(t, limits, now, events + [Upstream(span)], None, current)
  {
    hide Boundary, PastEnd;
  }

  lemma HitIsTight(t: TrackState, limits: Limits, now: int, events: seq<Event>, current: Location, next: Location)
    requires Tight(t, limits, now, events, None, current)
    ensures Tight(t, limits, now, events, None, next) && Tight(t, limits, now, events + [Publish(current)], None, next)
  {
    hide Boundary, PastEnd;
  }

  /** Where the events end: at the first of the misses that are still to be
      requested, or at the cursor. */
  function Bound(miss: Option<Location>, current: Location): Location {
    if miss.Some? then miss.value else current
  }

  /** What has been walked is settled. */
  ghost predicate Settled(t: TrackState, limits: Limits, now: int, range: Span, events: seq<Event>, miss: Option<Location>, current: Location) {
    && Ascending(events, Bound(miss, current))
    && (forall p: Location :: Covered(events, p) ==> Le(range.first, p))
    && (miss.Some? ==> Le(range.first, miss.value) && Lt(miss.value, current))
    && Le(range.first, current) && Le(current, range.end)
    && (forall p: Location :: Le(range.first, p) && Lt(p, Bound(miss, current)) ==> Covered(events, p) || KnownAbsent(t, p))
    && (forall p: Location :: Le(range.first, p) && Lt(p, current) && MustServe(t, limits, p, now) ==> Publish(p) in events)
  }

  /** The misses are requested at a boundary. */
  lemma FlushSettles(t: TrackState, limits: Limits, now: int, range: Span, events: seq<Event>, miss: Location, current: Location)
    requires Settled(t, limits, now, range, events, Some(miss), current)
    ensures Settled(t, limits, now, range, events + [Upstream(Span(miss, current))], None, current)
  {
    CoveredAppend(events, Upstream(Span(miss, current)));
    AscendingAppend(events, Upstream(Span(miss, current)), miss, current);
  }

  /** The cursor moves over positions known to be absent. */
  lemma SkipSettles(t: TrackState, limits: Limits, now: int, range: Span, events: seq<Event>, current: Location, next: Location)
    requires Settled(t, limits, now, range, events, None, current) && Le(current, next) && Le(next, range.end)
    requires forall p: Location :: Le(current, p) && Lt(p, next) ==> KnownAbsent(t, p)
    ensures Settled(t, limits, now, range, events, None, next)
  {
  }

  lemma MissSettles(t: TrackState, limits: Limits, now: int, range: Span, events: seq<Event>, miss: Option<Location>, current: Location, next: Location)
    requires Settled(t, limits, now, range, events, miss, current) && Lt(current, next) && Le(next, range.end)
    requires forall p: Location :: Le(current, p) && Lt(p, next) ==> !MustServe(t, limits, p, now)
    ensures Settled(t, limits, now, range, events, Some(Bound(miss, current)), next)
  {
  }

  lemma PublishSettles(t: TrackState, limits: Limits, now: int, range: Span, events: seq<Event>, current: Location, next: Location)
    requires Settled(t, limits, now, range, events, None, current) && Lt(current, next) && Le(next, range.end)
    requires forall p: Location :: Lt(current, p) && Lt(p, next) ==> KnownAbsent(t, p)
    ensures Settled(t, limits, now, range, events + [Publish(current)], None, next)
  {
    CoveredAppend(events, Publish(current));
    AscendingAppend(events, Publish(current), current, next);
  }

  /** A walk over the whole range: every position is published from the cache, or
      lies in an upstream request, or is known not to exist. No position is in two
      events, and events come in ascending order. */
  method FetchImpl(track: TrackState, limits: Limits, range: Span, now: int) returns (events: seq<Event>, t: TrackState)
    requires ContentsOk(track) && Le(range.first, range.end)
    ensures forall p: Location :: InSpan(range, p) ==> Covered(events, p) || KnownAbsent(track, p)
    ensures forall p: Location :: Covered(events, p) ==> InSpan(range, p)
    ensures forall p: Location :: InSpan(range, p) && MustServe(track, limits, p, now) ==> Publish(p) in events
    ensures Ascending(events, range.end)
    ensures Justified(events, range, track, limits, now)
    ensures forall i, p: Location :: 0 <= i < |events| && events[i].Upstream? && InSpan(events[i].span, p) ==>
              !Boundary(track, limits, p, now) || PastEnd(track, p)
    ensures ContentsOk(t) && SameButExpired(track, t, limits, now)
  {
    hide ContentsOk, SameButExpired, Ascending, KnownAbsent, Fresh, Justified, Settled, TrackLookup, MustServe, Boundary;
    NoHitsYet(range, track, limits, now);
    t, events := track, [];
    SameAtFirst(track, limits, now);
    StartSettled(track, limits, now, range);
    KnownIsGapOrComplete(t, range.first);
    var current := SkipGaps(t.gaps, range.first, range.end);
    GapsAreAbsent(track, range.first, current);
    SkipSettles(track, limits, now, range, [], range.first, current);
    var end := range.end;
    var fetchStart: Option<Location> := None;
    while true
      invariant ContentsOk(t) && SameButExpired(track, t, limits, now) && t.gaps == track.gaps
      invariant Settled(track, limits, now, range, events, fetchStart, current)
      invariant Justified(events, range, track, limits, now) && Tight(track, limits, now, events, fetchStart, current)
      invariant fetchStart.Some? ==> InSpan(range, fetchStart.value) && !Known(track, limits, fetchStart.value, now)
      invariant end == range.end && Le(current, range.end)
      decreases Distance(current, range.end)
    {
      if t.endOfTrack && t.largest.Some? && Lt(t.largest.value, current) {
        end := current;
      }
      if current == end {
        break;
      }
      KnownStays(track, t, limits, current, now);
      LookupKeepsSame(track, t, limits, current, now);
      TrackLookupContents(t, limits, current, now);
      var lookup := TrackLookup(t, limits, current, now);
      var hit := lookup.0;
      t := lookup.1;
      if hit.None? && !Contains(t.gaps, current) {
        var next := PassMiss(track, t, limits, now, range, events, fetchStart, current);
        CloserToEnd(current, next, range.end);
        fetchStart := Some(Bound(fetchStart, current));
        current := next;
        continue;
      }
      if fetchStart.Some? {
        var intervals := GetFetchIntervals(range.first, range.end, fetchStart.value, current, OldestFirst, false);
        FlushSettles(track, limits, now, range, events, fetchStart.value, current);
        RequestIsJustified(events, range, track, limits, now, intervals[0]);
        RequestIsTight(track, limits, now, events, fetchStart.value, current, intervals[0]);
        events := events + [Upstream(intervals[0])];
        fetchStart := None;
      }
      var next: Location;
      if hit.None? {
        next := PassGap(track, t, limits, now, range, events, current);
        HitIsTight(track, limits, now, events, current, next);
      } else {
        // Every served object moves the cursor on before it is published.
        next := PassHit(track, t, limits, now, range, events, current);
        HitIsJustified(events, range, track, limits, now, current);
        HitIsTight(track, limits, now, events, current, next);
        events := events + [Publish(current)];
      }
      CloserToEnd(current, next, range.end);
      current := next;
    }
    FinishSettled(track, t, limits, now, range, events, fetchStart, current);
    if fetchStart.Some? {
      var intervals := GetFetchIntervals(range.first, range.end, fetchStart.value, current, OldestFirst, true);
      RequestIsJustified(events, range, track, limits, now, intervals[0]);
      EndsPastTheEnd(track, t, limits, now, current, range.end);
      RequestIsTight(track, limits, now, events, fetchStart.value, current, intervals[0]);
      events := events + [Upstream(intervals[0])];
    }
  }

  /** A miss is not in the index either, so the cursor moves on. */
  method PassMiss(
    track: TrackState, t: TrackState, limits: Limits, now: int, range: Span, events: seq<Event>, miss: Option<Location>,
    current: Location
  ) returns (next: Location)
    requires ContentsOk(t) && Settled(track, limits, now, range, events, miss, current) && Lt(current, range.end)
    requires Contains(t.cachedContent, current) ==> Contains(t.gaps, current)
    requires !Contains(t.gaps, current) && SameButExpired(track, t, limits, now)
    requires Tight(track, limits, now, events, miss, current)
    ensures Settled(track, limits, now, range, events, Some(Bound(miss, current)), next) && Lt(current, next) && Le(next, range.end)
    ensures Tight(track, limits, now, events, Some(Bound(miss, current)), next)
  {
    hide Ascending, KnownAbsent, Fresh, Tight;
    next := SkipUncached(t.cachedContent, current, range.end);
    forall p: Location | Le(current, p) && Lt(p, next)
      ensures !MustServe(track, limits, p, now) && !Boundary(track, limits, p, now)
    {
      if p != current && Contains(t.cachedContent, p) {
        NextIsNearest(t.cachedContent, current, p);
      }
    }
    MissSettles(track, limits, now, range, events, miss, current, next);
    MissIsTight(track, limits, now, events, miss, current, next);
  }

  method PassGap(
    track: TrackState, t: TrackState, limits: Limits, now: int, range: Span, events: seq<Event>, current: Location
  ) returns (next: Location)
    requires ContentsOk(t) && t.gaps == track.gaps && Settled(track, limits, now, range, events, None, current)
    requires Contains(t.gaps, current) && Lt(current, range.end)
    ensures Settled(track, limits, now, range, events, None, next) && Lt(current, next) && Le(next, range.end)
  {
    hide ContentsOk, Ascending, KnownAbsent;
    KnownIsGapOrComplete(t, current);
    next := SkipGaps(t.gaps, current, range.end);
    GapsAreAbsent(track, current, next);
    SkipSettles(track, limits, now, range, events, current, next);
  }

  method PassHit(
    track: TrackState, t: TrackState, limits: Limits, now: int, range: Span, events: seq<Event>, current: Location
  ) returns (next: Location)
    requires ContentsOk(t) && SameButExpired(track, t, limits, now) && t.gaps == track.gaps
    requires Settled(track, limits, now, range, events, None, current) && Fresh(t, limits, current, now) && Lt(current, range.end)
    ensures Settled(track, limits, now, range, events + [Publish(current)], None, next) && Lt(current, next) && Le(next, range.end)
    ensures Fresh(track, limits, current, now)
  {
    hide ContentsOk, Ascending, KnownAbsent, SameButExpired;
    HitSteps(track, t, limits, current, now, range.end);
    KnownIsGapOrComplete(t, current);
    var one := AdvanceOne(t, current, range.end, range.end);
    PublishSettles(track, limits, now, range, events, current, one);
    next := SkipGaps(t.gaps, one, range.end);
    GapsAreAbsent(track, one, next);
    SkipSettles(track, limits, now, range, events + [Publish(current)], one, next);
  }

  lemma KnownStays(track: TrackState, t: TrackState, limits: Limits, p: Location, now: int)
    requires SameButExpired(track, t, limits, now)
    ensures Known(track, limits, p, now) <==> Known(t, limits, p, now)
  {
  }

  lemma NoHitsYet(range: Span, t: TrackState, limits: Limits, now: int)
    ensures Justified([], range, t, limits, now)
  {
  }

  lemma RequestIsJustified(events: seq<Event>, range: Span, t: TrackState, limits: Limits, now: int, span: Span)
    requires Justified(events, range, t, limits, now) && InSpan(range, span.first) && !Known(t, limits, span.first, now)
    ensures Justified(events + [Upstream(span)], range, t, limits, now)
  {
  }

  lemma HitIsJustified(events: seq<Event>, range: Span, t: TrackState, limits: Limits, now: int, current: Location)
    requires Justified(events, range, t, limits, now) && Fresh(t, limits, current, now)
    ensures Justified(events + [Publish(current)], range, t, limits, now)
  {
  }

  lemma SameAtFirst(t: TrackState, limits: Limits, now: int)
    ensures SameButExpired(t, t, limits, now)
  {
  }

  lemma StartSettled(t: TrackState, limits: Limits, now: int, range: Span)
    requires Le(range.first, range.end)
    ensures Settled(t, limits, now, range, [], None, range.first)
  {
  }

  lemma GapsAreAbsent(t: TrackState, a: Location, b: Location)
    requires forall p: Location :: Le(a, p) && Lt(p, b) ==> Contains(t.gaps, p)
    ensures forall p: Location :: Le(a, p) && Lt(p, b) ==> KnownAbsent(t, p)
  {
  }

  lemma HitSteps(track: TrackState, t: TrackState, limits: Limits, current: Location, now: int, max: Location)
    requires ContentsOk(t) && SameButExpired(track, t, limits, now) && Fresh(t, limits, current, now) && Lt(current, max)
    ensures Fresh(track, limits, current, now)
    ensures var r := AdvanceOne(t, current, max, max);
            && Lt(current, r) && Le(r, max)
            && forall p: Location :: Lt(current, p) && Lt(p, r) ==> KnownAbsent(track, p)
  {
    AdvanceOneSkipsAbsent(t, current, max);
  }

  lemma EndsPastTheEnd(track: TrackState, t: TrackState, limits: Limits, now: int, current: Location, end: Location)
    requires SameButExpired(track, t, limits, now)
    requires current == end || (t.endOfTrack && t.largest.Some? && Lt(t.largest.value, current))
    ensures forall p: Location :: Le(current, p) && Lt(p, end) ==> PastEnd(track, p)
  {
  }

  lemma FinishSettled(
    track: TrackState, t: TrackState, limits: Limits, now: int, range: Span, events: seq<Event>, miss: Option<Location>, current: Location
  )
    requires SameButExpired(track, t, limits, now) && Settled(track, limits, now, range, events, miss, current)
    requires current == range.end || (t.endOfTrack && t.largest.Some? && Lt(t.largest.value, current))
    ensures var all := if miss.Some? then events + [Upstream(Span(miss.value, range.end))] else events;
            && (forall p: Location :: InSpan(range, p) ==> Covered(all, p) || KnownAbsent(track, p))
            && (forall p: Location :: Covered(all, p) ==> InSpan(range, p))
            && (forall p: Location :: InSpan(range, p) && MustServe(track, limits, p, now) ==> Publish(p) in all)
            && Ascending(all, range.end)
  {
    hide Fresh;
    assert forall p: Location :: Le(current, p) && Lt(p, range.end) ==> KnownAbsent(track, p);
    if miss.Some? {
      CoveredAppend(events, Upstream(Span(miss.value, range.end)));
      AscendingAppend(events, Upstream(Span(miss.value, range.end)), miss.value, range.end);
    }
  }
}
