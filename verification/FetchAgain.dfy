/** An upstream fetch that has a track to itself. Once it has its whole response and the
    FETCH_OK, the same FETCH is answered below the End Location without asking upstream
    again. */
module FetchAgain {
  import opened Locations
  import opened IntervalSets
  import opened RangeAlgebra
  import opened TrackModel
  import opened CacheTracks
  import opened CacheInvariant
  import opened CacheSteps
  import opened FetchGaps
  import opened FetchPlan

  // --- Gaps while the cap is not reached ---------------------------------------------------

  /** Recording the ranges one after another never exceeds the cap. */
  ghost predicate Room(ix: Index, ranges: seq<Interval>)
    requires WellFormed(ix) && RangesOk(ranges)
    decreases |ranges|
  {
    ranges == [] ||
    (|Insert(ix.gaps, ranges[0].first, ranges[0].last)| <= MAX_GAP_INTERVALS && Room(WithGap(ix, ranges[0]), ranges[1..]))
  }

  lemma {:induction false} RoomKeepsAll(ix: Index, ranges: seq<Interval>)
    requires WellFormed(ix) && RangesOk(ranges) && Room(ix, ranges)
    ensures forall p: Location :: Contains(WithGaps(ix, ranges).gaps, p) <==> Contains(ix.gaps, p) || InSomeInterval(ranges, p)
    decreases |ranges|
  {
    if ranges != [] {
      RoomKeepsAll(WithGap(ix, ranges[0]), ranges[1..]);
      InsertMeaning(ix.gaps, ranges[0].first, ranges[0].last);
      assert ranges == [ranges[0]] + ranges[1..];
      InSomeConcat([ranges[0]], ranges[1..]);
      InSomeOne(ranges[0]);
    }
  }

  lemma {:induction false} InsertAddsOne(s: IntervalSet, first: Location, last: Location)
    requires Canonical(s) && Le(first, last)
    ensures |Insert(s, first, last)| <= |s| + 1
    decreases |s|
  {
    if s != [] && Apart(s[0].last, first) {
      InsertAddsOne(s[1..], first, last);
    } else if s != [] && !Apart(last, s[0].first) {
      InsertAddsOne(s[1..], Min(first, s[0].first), Max(last, s[0].last));
    }
  }

  /** A cap that is far away is not reached. */
  lemma {:induction false} FewGapsFit(ix: Index, ranges: seq<Interval>)
    requires WellFormed(ix) && RangesOk(ranges) && |ix.gaps| + |ranges| <= MAX_GAP_INTERVALS
    ensures Room(ix, ranges)
    decreases |ranges|
  {
    if ranges != [] {
      InsertAddsOne(ix.gaps, ranges[0].first, ranges[0].last);
      FewGapsFit(WithGap(ix, ranges[0]), ranges[1..]);
    }
  }

  /** No range that the write proves absent makes the cap forget one. */
  ghost predicate WriteRoom(groups: Groups, ix: Index, w: Write)
    requires w.loc.group in groups && WellFormed(ix)
  {
    var before := PriorGroupStep(groups, w.loc, w.extensions);
    var ix1 := WithGaps(ix, before.ranges);
    var inside := PriorObjectStep(groups[w.loc.group].(seenPriorGroupIdGap := before.seen), w.loc, w.extensions);
    var ix2 := WithGaps(ix1, inside.ranges);
    Room(ix, before.ranges) && Room(ix1, inside.ranges) && Room(ix2, EndRanges(w.loc, w.status))
  }

  /** With room, an accepted write keeps every gap and adds exactly those that it names. */
  lemma WriteKeepsGaps(groups: Groups, ix: Index, w: Write, p: Location)
    requires w.loc.group in groups && WellFormed(ix) && WriteRoom(groups, ix, w)
    requires CacheObject(groups, ix, w).error.None?
    ensures var before := PriorGroupStep(groups, w.loc, w.extensions);
            var inside := PriorObjectStep(groups[w.loc.group].(seenPriorGroupIdGap := before.seen), w.loc, w.extensions);
            && before.error.None? && inside.error.None?
            && (Contains(CacheObject(groups, ix, w).index.gaps, p) <==>
                || Contains(ix.gaps, p) || InSomeInterval(before.ranges, p) || InSomeInterval(inside.ranges, p)
                || InSomeInterval(EndRanges(w.loc, w.status), p))
  {
    hide PriorGroupStep, PriorObjectStep, EndRanges, Room, WithGaps, StoreEntry, Contains, InSomeInterval;
    var before := PriorGroupStep(groups, w.loc, w.extensions);
    var ix1 := WithGaps(ix, before.ranges);
    var inside := PriorObjectStep(groups[w.loc.group].(seenPriorGroupIdGap := before.seen), w.loc, w.extensions);
    var ix2 := WithGaps(ix1, inside.ranges);
    RoomKeepsAll(ix, before.ranges);
    RoomKeepsAll(ix1, inside.ranges);
    RoomKeepsAll(ix2, EndRanges(w.loc, w.status));
  }

  /** These are the groups and objects that it says were skipped, and what follows it if
      it is an end marker. */
  lemma GapsAfterWrite(groups: Groups, ix: Index, w: Write, p: Location)
    requires w.loc.group in groups && WellFormed(ix) && WriteRoom(groups, ix, w)
    requires CacheObject(groups, ix, w).error.None?
    ensures var before, inside := w.extensions.priorGroupIdGap, w.extensions.priorObjectIdGap;
            Contains(CacheObject(groups, ix, w).index.gaps, p) <==>
            || Contains(ix.gaps, p)
            || (before.Some? && groups[w.loc.group].seenPriorGroupIdGap.None? && p.group < w.loc.group <= p.group + before.value)
            || (inside.Some? && p.group == w.loc.group && p.obj < w.loc.obj <= p.obj + inside.value)
            || (w.status != Normal && Lt(w.loc, p) && (w.status == EndOfTrack || p.group == w.loc.group))
  {
    hide CacheObject, PriorGroupStep, PriorObjectStep, EndRanges, WriteRoom, Contains, InSomeInterval;
    WriteKeepsGaps(groups, ix, w, p);
    var before := PriorGroupStep(groups, w.loc, w.extensions);
    PriorGroupStepMeans(groups, w.loc, w.extensions, p);
    PriorObjectStepMeans(groups[w.loc.group].(seenPriorGroupIdGap := before.seen), w.loc, w.extensions, p);
    EndRangesMean(w.loc, w.status, p);
  }

  // --- What a write does to the objects -------------------------------------------------------

  /** A complete object stays complete, whatever is written. */
  lemma CompleteStays(groups: Groups, ix: Index, w: Write, p: Location)
    requires w.loc.group in groups && WellFormed(ix) && CompleteAt(groups, p)
    ensures CompleteAt(groups[w.loc.group := CacheObject(groups, ix, w).group], p)
  {
    hide WithGaps, StoreEntry;
    NoteGapsFrame(groups, ix, w);
    var noted := NoteGaps(groups, ix, w);
    var prior := Lookup(noted.group.objects, w.loc.obj);
    if noted.error.None? && StoreEntry(prior, w).Keep? {
      StoreEntryGrows(prior, w);
    }
  }

  /** A whole copy that is not shorter than what is cached completes its object. */
  lemma WholeCopyIsComplete(groups: Groups, ix: Index, w: Write)
    requires w.loc.group in groups && WellFormed(ix) && w.offset == 0 && w.complete
    requires var prior := Lookup(groups[w.loc.group].objects, w.loc.obj);
             prior.Some? ==> prior.value.payloadSize <= |BytesOf(w.payload)|
    requires CacheObject(groups, ix, w).error.None?
    ensures CompleteAt(groups[w.loc.group := CacheObject(groups, ix, w).group], w.loc)
  {
    NoteGapsFrame(groups, ix, w);
  }

  /** What follows the end of a group is in the gaps. */
  ghost predicate TailsKnown(t: TrackState) {
    forall p: Location ::
      p.group in t.groups && t.groups[p.group].endOfGroup && p.obj > t.groups[p.group].maxCachedObject ==> Contains(t.gaps, p)
  }

  lemma GroupAfterWrite(groups: Groups, ix: Index, w: Write)
    requires w.loc.group in groups && WellFormed(ix) && GroupConsistent(w.loc.group, groups[w.loc.group])
    requires CacheObject(groups, ix, w).error.None?
    ensures var g := groups[w.loc.group];
            var r := CacheObject(groups, ix, w).group;
            && r.maxCachedObject >= g.maxCachedObject
            && (r.endOfGroup ==> g.endOfGroup || (!w.status.Normal? && (w.offset == 0 ==> r.maxCachedObject >= w.loc.obj)))
  {
    hide WithGaps, Sizes, PriorGroupStep, PriorObjectStep, EndRanges;
  }

  lemma TailsAfterWrite(t: TrackState, w: Write)
    requires ContentsOk(t) && TailsKnown(t) && w.loc.group in t.groups && w.offset == 0
    requires WriteRoom(t.groups, t.Ix(), w) && CacheObject(t.groups, t.Ix(), w).error.None?
    ensures TailsKnown(AfterWrite(t, w))
  {
    hide CacheObject, WriteRoom, EndRanges, Contains;
    var u := AfterWrite(t, w);
    GroupAfterWrite(t.groups, t.Ix(), w);
    forall p: Location | p.group in u.groups && u.groups[p.group].endOfGroup && p.obj > u.groups[p.group].maxCachedObject
      ensures Contains(u.gaps, p)
    {
      EndRangesMean(w.loc, w.status, p);
      WriteKeepsGaps(t.groups, t.Ix(), w, p);
    }
  }

  // --- What the track knows --------------------------------------------------------------------

  predicate Found(t: TrackState, p: Location) {
    CompleteAt(t.groups, p) || Contains(t.gaps, p) || PastEnd(t, p)
  }

  /** Nothing the track knew is forgotten. */
  ghost predicate Grows(t: TrackState, u: TrackState) {
    && (forall p: Location :: Found(t, p) ==> Found(u, p))
    && (forall p: Location :: Contains(t.gaps, p) ==> Contains(u.gaps, p))
  }

  lemma GrowsOn(t: TrackState, u: TrackState, v: TrackState)
    requires Grows(t, u) && Grows(u, v)
    ensures Grows(t, v)
  {
    hide Found, Contains;
  }

  lemma FoundAfterWrite(t: TrackState, w: Write)
    requires ContentsOk(t) && w.loc.group in t.groups
    requires WriteRoom(t.groups, t.Ix(), w) && CacheObject(t.groups, t.Ix(), w).error.None?
    ensures Grows(t, AfterWrite(t, w))
  {
    hide CacheObject, WriteRoom, Contains, CompleteAt;
    var u := AfterWrite(t, w);
    forall p: Location
      ensures Contains(t.gaps, p) ==> Contains(u.gaps, p)
      ensures CompleteAt(t.groups, p) ==> CompleteAt(u.groups, p)
    {
      WriteKeepsGaps(t.groups, t.Ix(), w, p);
      if CompleteAt(t.groups, p) {
        CompleteStays(t.groups, t.Ix(), w, p);
      }
    }
  }

  lemma FoundAfterOpen(t: TrackState, g: Id)
    requires g !in t.groups
    ensures Grows(t, WithGroup(t, g)) && (TailsKnown(t) ==> TailsKnown(WithGroup(t, g)))
  {
    hide Contains;
  }

  lemma FoundAfterLargest(t: TrackState, current: Location, eot: bool)
    ensures Grows(t, AfterLargest(t, current, eot)) && (TailsKnown(t) ==> TailsKnown(AfterLargest(t, current, eot)))
  {
    hide Contains, CompleteAt;
  }

  lemma FoundAfterGap(t: TrackState, i: Interval)
    requires WellFormed(t.Ix()) && Le(i.first, i.last) && |Insert(t.gaps, i.first, i.last)| <= MAX_GAP_INTERVALS
    ensures Grows(t, AfterGap(t, i)) && (TailsKnown(t) ==> TailsKnown(AfterGap(t, i)))
    ensures forall p: Location :: Within(i, p) ==> Contains(AfterGap(t, i).gaps, p)
  {
    InsertMeaning(t.gaps, i.first, i.last);
    hide Contains, CompleteAt;
  }

  /** The gaps handed over are in the track. */
  ghost predicate Delivered(t: TrackState, handed: seq<Interval>) {
    forall p: Location :: InSomeInterval(handed, p) ==> Contains(t.gaps, p)
  }

  /** Below the cursor, nothing is unknown that is not at least marked. */
  ghost predicate Reached(t: TrackState, range: Span, marked: seq<Interval>, cursor: Location) {
    forall p: Location :: Le(range.first, p) && Lt(p, cursor) ==> Found(t, p) || InSomeInterval(marked, p)
  }

  lemma ReachedOn(t: TrackState, u: TrackState, range: Span, marked: seq<Interval>, cursor: Location, handed: seq<Interval>)
    requires Reached(t, range, marked, cursor) && Delivered(t, handed) && Grows(t, u)
    ensures Reached(u, range, marked, cursor) && Delivered(u, handed)
  {
    hide Found, Contains, InSomeInterval;
  }

  /** Marking up to an object leaves nothing out. */
  lemma ReachedObject(
    t: TrackState, range: Span, marked: seq<Interval>, cursor: Location, u: TrackState, marked': seq<Interval>, loc: Location)
    requires Reached(t, range, marked, cursor) && Grows(t, u)
    requires forall p: Location :: InSomeInterval(marked', p) <==> InSomeInterval(marked, p) || (Le(cursor, p) && Lt(p, loc))
    ensures Reached(u, range, marked', loc)
  {
    hide Found, Contains, InSomeInterval;
  }

  /** Neither does the step beyond it. */
  lemma ReachedBeyond(t: TrackState, range: Span, marked: seq<Interval>, loc: Location, one: Location, landing: Location)
    requires Reached(t, range, marked, loc) && CompleteAt(t.groups, loc)
    requires forall p: Location :: Lt(loc, p) && Lt(p, one) ==> Found(t, p)
    requires forall p: Location :: Le(one, p) && Lt(p, landing) ==> Contains(t.gaps, p)
    ensures Reached(t, range, marked, landing)
  {
    hide Contains, InSomeInterval, CompleteAt;
    forall p: Location | Le(range.first, p) && Lt(p, landing)
      ensures Found(t, p) || InSomeInterval(marked, p)
    {
    }
  }

  /** What the cursor's single step passes over is known. */
  lemma SteppedOverIsFound(t: TrackState, loc: Location, max: Location)
    requires ContentsOk(t) && TailsKnown(t) && CompleteAt(t.groups, loc) && Lt(loc, max)
    ensures var one := AdvanceOne(t, loc, max, max);
            Lt(loc, one) && Le(one, max) && forall p: Location :: Lt(loc, p) && Lt(p, one) ==> Found(t, p)
  {
    hide Contains;
    AdvanceOneSkipsAbsent(t, loc, max);
  }

  /** The track with the group opened. */
  function Opened(t: TrackState, g: Id): TrackState {
    if g in t.groups then t else WithGroup(t, g)
  }

  /** The track with the gaps recorded, one after another. */
  ghost function AfterGaps(t: TrackState, gaps: seq<Interval>): TrackState
    requires WellFormed(t.Ix()) && RangesOk(gaps)
  {
    var ix := WithGaps(t.Ix(), gaps);
    t.(gaps := ix.gaps, cachedContent := ix.content)
  }

  lemma AfterOneGap(t: TrackState, gaps: seq<Interval>)
    requires WellFormed(t.Ix()) && RangesOk(gaps) && gaps != []
    ensures WellFormed(AfterGap(t, gaps[0]).Ix()) && RangesOk(gaps[1..])
    ensures AfterGaps(t, gaps) == AfterGaps(AfterGap(t, gaps[0]), gaps[1..])
  {
    hide WithGap, WellFormed;
    assert AfterGap(t, gaps[0]).Ix() == WithGap(t.Ix(), gaps[0]);
  }

  lemma AfterNoGaps(t: TrackState)
    requires WellFormed(t.Ix())
    ensures AfterGaps(t, []) == t
  {
  }

  /** The track after an object of a response, with the gaps that the response then hands
      over. */
  ghost function AfterObject(t: TrackState, w: Write, gaps: seq<Interval>): TrackState
    requires WellFormed(t.Ix()) && RangesOk(gaps)
  {
    var u := Opened(t, w.loc.group);
    var v := AfterGaps(AfterWrite(u, w), gaps);
    if CacheObject(u.groups, u.Ix(), w).error.Some? then v else AfterLargest(v, w.loc, w.status.EndOfTrack?)
  }

  /** Neither the write nor the gaps that the fetch then hands over reach the cap. */
  ghost predicate ObjectRoom(t: TrackState, w: Write, gaps: seq<Interval>)
    requires WellFormed(t.Ix()) && RangesOk(gaps)
  {
    var u := Opened(t, w.loc.group);
    WriteRoom(u.groups, u.Ix(), w) && Room(AfterWrite(u, w).Ix(), gaps)
  }

  // --- The fetch ------------------------------------------------------------------------------------

  class LoneFetch {
    const writeback: FetchWriteback
    var track: TrackState

    /** No object was refused, and the gap cap never forgot anything. */
    ghost var intact: bool

    ghost predicate Valid()
      reads this, writeback
    {
      && writeback.Valid() && ContentsOk(track)
      && (intact ==>
            && TailsKnown(track) && Delivered(track, writeback.handed)
            && Reached(track, writeback.range, writeback.marked, writeback.cursor)
            && (writeback.closed || !writeback.busy))
    }

    constructor (track: TrackState, range: Span)
      requires ContentsOk(track) && TailsKnown(track) && Le(range.first, range.end)
      ensures Valid() && fresh(writeback) && intact && writeback.range == range && !writeback.closed && writeback.last.None?
      ensures this.track == track && writeback.upstreamEnd.None? && writeback.received == {}
    {
      hide ContentsOk, TailsKnown, Marks, Behind;
      KnownIsGapOrComplete(track, range.first);
      var landing := SkipGaps(track.gaps, range.first, range.end);
      writeback := new FetchWriteback(range.first, range.end, landing);
      this.track := track;
      intact := true;
    }

    /** The track records the gaps handed over since the count was `from`. */
    method Deliver(from: nat)
      requires ContentsOk(track) && from <= |writeback.handed| && RangesOk(writeback.handed)
      requires intact ==> TailsKnown(track) && Delivered(track, writeback.handed[..from])
      modifies this`track, this`intact
      ensures ContentsOk(track) && WellFormed(old(track).Ix())
      ensures intact <==> old(intact) && Room(old(track).Ix(), writeback.handed[from..])
      ensures intact ==> TailsKnown(track) && Delivered(track, writeback.handed) && Grows(old(track), track)
      ensures track == AfterGaps(old(track), writeback.handed[from..])
    {
      hide ContentsOk, TailsKnown, Grows, Delivered, InSomeInterval, WithGap, TrackBytes, Found, AfterGaps;
      GrowsAtFirst(track);
      KnownIsGapOrComplete(track, LAST);
      for i := from to |writeback.handed|
        invariant ContentsOk(track) && WellFormed(track.Ix()) && WellFormed(old(track).Ix()) && RangesOk(writeback.handed[i..])
        invariant old(intact) && Room(old(track).Ix(), writeback.handed[from..]) <==> intact && Room(track.Ix(), writeback.handed[i..])
        invariant intact ==> TailsKnown(track) && Delivered(track, writeback.handed[..i]) && Grows(old(track), track)
        invariant AfterGaps(track, writeback.handed[i..]) == AfterGaps(old(track), writeback.handed[from..])
      {
        var gap := writeback.handed[i];
        assert writeback.handed[i..][0] == gap && writeback.handed[i..][1..] == writeback.handed[i + 1..];
        AfterGapContents(track, gap);
        AfterOneGap(track, writeback.handed[i..]);
        assert AfterGap(track, gap).Ix() == WithGap(track.Ix(), gap);
        intact := intact && |Insert(track.gaps, gap.first, gap.last)| <= MAX_GAP_INTERVALS;
        if intact {
          FoundAfterGap(track, gap);
          GrowsOn(old(track), track, AfterGap(track, gap));
          DeliveredOneMore(track, AfterGap(track, gap), writeback.handed, i);
        }
        track := AfterGap(track, gap);
      }
      assert writeback.handed[..|writeback.handed|] == writeback.handed;
      AfterNoGaps(track);
    }

    /** The group is opened, the object written. */
    method Store(w: Write) returns (error: Option<PublishError>)
      requires ContentsOk(track) && w.offset == 0 && w.complete && NotShorter(track, w)
      requires intact ==> TailsKnown(track)
      modifies this`track, this`intact
      ensures ContentsOk(track) && WellFormed(old(track).Ix())
      ensures var u := Opened(old(track), w.loc.group);
              && track == AfterWrite(u, w) && error == CacheObject(u.groups, u.Ix(), w).error
              && (intact <==> old(intact) && error.None? && WriteRoom(u.groups, u.Ix(), w))
      ensures intact ==> TailsKnown(track) && Grows(old(track), track) && CompleteAt(track.groups, w.loc)
    {
      hide ContentsOk, TailsKnown, Grows, CacheObject, WriteRoom, TrackBytes, Found, CompleteAt;
      GrowsAtFirst(track);
      KnownIsGapOrComplete(track, w.loc);
      if w.loc.group !in track.groups {
        WithGroupContents(track, w.loc.group);
        FoundAfterOpen(track, w.loc.group);
        track := WithGroup(track, w.loc.group);
      }
      ghost var open := track;
      KnownIsGapOrComplete(track, w.loc);
      AfterWriteContents(track, w);
      error := CacheObject(track.groups, track.Ix(), w).error;
      intact := intact && error.None? && WriteRoom(track.groups, track.Ix(), w);
      if intact {
        TailsAfterWrite(track, w);
        FoundAfterWrite(track, w);
        WholeCopyIsComplete(track.groups, track.Ix(), w);
        GrowsOn(old(track), open, AfterWrite(track, w));
      }
      track := AfterWrite(track, w);
    }

    /** A whole object or marker arrives, in order. */
    method ObjectArrived(w: Write) returns (ok: bool)
      requires Valid() && !writeback.closed && InSpan(writeback.range, w.loc)
      requires writeback.last.Some? ==> Lt(writeback.last.value, w.loc)
      requires w.offset == 0 && w.complete && NotShorter(track, w)
      modifies this, writeback
      ensures Valid() && !writeback.closed && writeback.last == Some(w.loc) && old(writeback.handed) <= writeback.handed
      ensures ok <==> Accepts(old(track), w)
      ensures intact <==>
              old(intact) && ok && ObjectRoom(old(track), w, writeback.handed[|old(writeback.handed)|..])
      ensures track == AfterObject(old(track), w, writeback.handed[|old(writeback.handed)|..])
      ensures writeback.received == old(writeback.received) + {w.loc} && writeback.upstreamEnd == old(writeback.upstreamEnd)
    {
      hide ContentsOk, TailsKnown, Grows, Delivered, Reached, Marks, Behind, Accounted, InSomeInterval, Found, CompleteAt;
      hide WriteRoom, Room, AfterWrite, Opened, CacheObject, UpdatedLargest, NotShorter, AdvanceOne, Contains, WellFormed;
      ghost var before := track;
      WriteKeepsLargest(track, w);
      var error := Store(w);
      ghost var stored := track;
      var from := |writeback.handed|;
      ghost var marked, handed, cursor := writeback.marked, writeback.handed, writeback.cursor;
      writeback.TakeObject(w.loc);
      if intact {
        ReachedOn(before, stored, writeback.range, marked, cursor, handed);
        assert writeback.handed[..from] == handed;
      }
      Deliver(from);
      if error.Some? {
        return false;
      }
      ghost var delivered := track;
      error := MoveLargest(w);
      if error.Some? {
        return false;
      }
      if intact {
        GrowsOn(stored, delivered, track);
        ReachedObject(stored, writeback.range, marked, cursor, track, writeback.marked, w.loc);
      }
      StepOn(w.loc);
      return true;
    }

    /** The cursor leaves the stored object, past what is known not to exist. */
    method StepOn(loc: Location)
      requires writeback.Valid() && !writeback.closed && writeback.busy && writeback.cursor == loc
      requires ContentsOk(track) && Lt(loc, writeback.range.end)
      requires intact ==>
                 && TailsKnown(track) && Delivered(track, writeback.handed) && CompleteAt(track.groups, loc)
                 && Reached(track, writeback.range, writeback.marked, loc)
      modifies writeback`cursor, writeback`busy
      ensures Valid()
    {
      hide ContentsOk, TailsKnown, Delivered, Reached, Marks, Accounted, Found, CompleteAt, AdvanceOne, Contains;
      var end := writeback.range.end;
      AdvanceOneForward(track, loc, end);
      var one := AdvanceOne(track, loc, end, end);
      KnownIsGapOrComplete(track, one);
      var landing := SkipGaps(track.gaps, one, end);
      if intact {
        SteppedOverIsFound(track, loc, end);
        ReachedBeyond(track, writeback.range, writeback.marked, loc, one, landing);
      }
      writeback.ObjectCompleted(landing);
    }

    /** The FETCH_OK, at any time. */
    method FetchOkArrived(end: Location)
      requires Valid() && writeback.upstreamEnd.None?
      modifies this, writeback
      ensures Valid() && WellFormed(old(track).Ix()) && writeback.upstreamEnd == Some(end)
      ensures old(writeback.handed) <= writeback.handed
      ensures intact <==> old(intact) && Room(old(track).Ix(), writeback.handed[|old(writeback.handed)|..])
      ensures track == AfterGaps(old(track), writeback.handed[|old(writeback.handed)|..])
      ensures writeback.closed == old(writeback.closed) && writeback.last == old(writeback.last)
      ensures writeback.received == old(writeback.received)
    {
      hide ContentsOk, TailsKnown, Grows, Delivered, Reached, Marks, Behind, Accounted, InSomeInterval, Found;
      ghost var before := track;
      var from := |writeback.handed|;
      ghost var handed := writeback.handed;
      writeback.SetUpstreamEnd(end);
      assert writeback.handed[..from] == handed;
      Deliver(from);
      if intact {
        ReachedOn(before, track, writeback.range, writeback.marked, writeback.cursor, handed);
      }
    }

    /** The response ends. */
    method Finish()
      requires Valid()
      modifies this, writeback
      ensures Valid() && WellFormed(old(track).Ix()) && writeback.closed
      ensures old(writeback.handed) <= writeback.handed
      ensures intact <==> old(intact) && Room(old(track).Ix(), writeback.handed[|old(writeback.handed)|..])
      ensures track == AfterGaps(old(track), writeback.handed[|old(writeback.handed)|..])
      ensures writeback.upstreamEnd == old(writeback.upstreamEnd) && writeback.received == old(writeback.received)
      ensures !old(writeback.closed) && intact ==> writeback.cursor == writeback.range.end
    {
      hide ContentsOk, TailsKnown, Grows, Delivered, Reached, Marks, Behind, Accounted, InSomeInterval, Found;
      KnownIsGapOrComplete(track, LAST);
      if writeback.closed {
        return;
      }
      ghost var before := track;
      var from := |writeback.handed|;
      ghost var marked, handed, cursor := writeback.marked, writeback.handed, writeback.cursor;
      var pastEnd := PastEnd(track, writeback.cursor);
      writeback.FinishRange(pastEnd);
      assert writeback.handed[..from] == handed;
      Deliver(from);
      if intact {
        ReachedOn(before, track, writeback.range, marked, cursor, handed);
        ReachedTheEnd(track, writeback.range, marked, cursor, writeback.marked, pastEnd);
      }
    }

    /** The same FETCH again, while nothing has expired: no request reaches below the End
        Location. */
    method Again(limits: Limits, now: int) returns (events: seq<Event>)
      requires Valid() && intact && writeback.closed && writeback.cursor == writeback.range.end
      requires writeback.upstreamEnd.Some? && forall r :: r in writeback.received ==> Lt(r, writeback.upstreamEnd.value)
      requires forall p: Location :: InSpan(writeback.range, p) && CompleteAt(track.groups, p) ==> Fresh(track, limits, p, now)
      ensures forall i, p: Location :: 0 <= i < |events| && events[i].Upstream? && Covers(events[i], p) ==>
                Le(writeback.upstreamEnd.value, p)
    {
      hide ContentsOk, TailsKnown, Marks, Behind, InSomeInterval, Contains, Fresh, SameButExpired, MustServe, KnownAbsent, Ascending;
      ghost var t;
      events, t := FetchImpl(track, limits, writeback.range, now);
      forall p: Location | InSpan(writeback.range, p) && Lt(p, writeback.upstreamEnd.value)
        ensures Known(track, limits, p, now)
      {
      }
    }

    method MoveLargest(w: Write) returns (error: Option<PublishError>)
      requires ContentsOk(track) && (intact ==> TailsKnown(track) && Delivered(track, writeback.handed))
      modifies this`track, this`intact
      ensures ContentsOk(track) && track == AfterLargest(old(track), w.loc, w.status.EndOfTrack?)
      ensures error == UpdatedLargest(old(track).largest, old(track).endOfTrack, w.loc, w.status.EndOfTrack?).error
      ensures intact <==> old(intact) && error.None?
      ensures intact ==> TailsKnown(track) && Delivered(track, writeback.handed) && Grows(old(track), track)
    {
      hide ContentsOk, TailsKnown, Grows, Delivered, TrackBytes;
      AfterLargestContents(track, w.loc, w.status.EndOfTrack?);
      FoundAfterLargest(track, w.loc, w.status.EndOfTrack?);
      SameGapsDelivered(track, AfterLargest(track, w.loc, w.status.EndOfTrack?), writeback.handed);
      error := UpdatedLargest(track.largest, track.endOfTrack, w.loc, w.status.EndOfTrack?).error;
      track := AfterLargest(track, w.loc, w.status.EndOfTrack?);
      intact := intact && error.None?;
    }
  }

  lemma ReachedTheEnd(
    t: TrackState, range: Span, marked: seq<Interval>, cursor: Location, marked': seq<Interval>, pastEnd: bool)
    requires Reached(t, range, marked, cursor) && (pastEnd ==> PastEnd(t, cursor))
    requires forall p: Location ::
               InSomeInterval(marked', p) <==> InSomeInterval(marked, p) || (!pastEnd && Le(cursor, p) && Lt(p, range.end))
    ensures Reached(t, range, marked', range.end)
  {
    hide InSomeInterval, Contains, CompleteAt;
  }

  lemma SameGapsDelivered(t: TrackState, u: TrackState, handed: seq<Interval>)
    requires u.gaps == t.gaps
    ensures Delivered(u, handed) <==> Delivered(t, handed)
  {
  }

  lemma AdvanceOneForward(t: TrackState, current: Location, max: Location)
    requires Lt(current, max)
    ensures Lt(current, AdvanceOne(t, current, max, max)) && Le(AdvanceOne(t, current, max, max), max)
  {
  }

  lemma WriteKeepsLargest(t: TrackState, w: Write)
    requires ContentsOk(t)
    ensures WellFormed(t.Ix()) && WellFormed(Opened(t, w.loc.group).Ix()) && w.loc.group in Opened(t, w.loc.group).groups
    ensures var u := AfterWrite(Opened(t, w.loc.group), w); u.largest == t.largest && u.endOfTrack == t.endOfTrack
  {
    hide CacheObject;
  }

  /** The cache takes the object, and it does not contradict the end of the track. */
  predicate Accepts(t: TrackState, w: Write)
    requires WellFormed(t.Ix())
  {
    var u := Opened(t, w.loc.group);
    && CacheObject(u.groups, u.Ix(), w).error.None?
    && UpdatedLargest(t.largest, t.endOfTrack, w.loc, w.status.EndOfTrack?).error.None?
  }

  predicate NotShorter(t: TrackState, w: Write) {
    var e := EntryAt(t, w.loc);
    e.Some? ==> e.value.payloadSize <= |BytesOf(w.payload)|
  }

  lemma GrowsAtFirst(t: TrackState)
    ensures Grows(t, t)
  {
  }

  lemma DeliveredOneMore(t: TrackState, u: TrackState, handed: seq<Interval>, i: nat)
    requires i < |handed| && Delivered(t, handed[..i]) && Grows(t, u)
    requires forall p: Location :: Within(handed[i], p) ==> Contains(u.gaps, p)
    ensures Delivered(u, handed[..i + 1])
  {
    hide InSomeInterval, Contains, Found;
    assert handed[..i + 1] == handed[..i] + [handed[i]];
    InSomeAppend(handed[..i], handed[i]);
  }
}
