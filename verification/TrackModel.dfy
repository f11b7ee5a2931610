/** One cached track: its groups of objects, the gaps known not to exist, and
    the index `cachedContent` that a fetch walks. */
module TrackModel {
  import opened Locations
  import opened IntervalSets
  import opened MapTotals
  import opened Names

  const MAX_GAP_INTERVALS: nat := 256
  const MAX_GAP_VALIDATION: nat := 100

  type Id = n: nat | n <= LIMIT

  datatype ObjectStatus = Normal | EndOfGroup | EndOfTrack

  /** The two extensions the cache interprets. */
  datatype Extensions = Extensions(priorGroupIdGap: Option<nat>, priorObjectIdGap: Option<nat>)

  datatype CacheEntry = CacheEntry(
    subgroup: nat,
    status: ObjectStatus,
    extensions: Extensions,
    payload: Option<Bytes>,
    payloadSize: nat,
    complete: bool,
    datagram: bool,
    cachedAt: int)

  datatype CacheGroup = CacheGroup(
    objects: map<Id, CacheEntry>,
    maxCachedObject: nat,
    endOfGroup: bool,
    seenPriorGroupIdGap: Option<nat>,
    totalBytes: nat)

  const NEW_GROUP := CacheGroup(map[], 0, false, None, 0)

  type Groups = map<Id, CacheGroup>

  /** One write handed to the cache. `offset` is where its bytes start in the
      object, `complete` says that it ends the writer's copy. */
  datatype Write = Write(
    loc: Location,
    subgroup: nat,
    status: ObjectStatus,
    extensions: Extensions,
    payload: Option<Bytes>,
    complete: bool,
    datagram: bool,
    now: int,
    offset: nat)

  datatype PublishError =
    | ObjectInKnownGap
    | PriorGroupGapTooLarge
    | PriorGroupGapInconsistent
    | PriorGroupGapCoversObject
    | PriorObjectGapTooLarge
    | PriorObjectGapCoversObject
    | StatusChanged
    | PayloadMismatch
    | ForwardingPreferenceMismatch
    | PastEndOfTrack
    | PayloadPastLength

  // --- The index ---------------------------------------------------------

  datatype Index = Index(gaps: IntervalSet, content: IntervalSet)

  predicate WellFormed(ix: Index) {
    Canonical(ix.gaps) && Canonical(ix.content)
  }

  /** Lowest gaps are forgotten, in both sets, until the cap holds. */
  function Enforced(ix: Index): (r: Index)
    requires WellFormed(ix)
    ensures WellFormed(r) && |r.gaps| <= MAX_GAP_INTERVALS
    decreases |ix.gaps|
  {
    if |ix.gaps| <= MAX_GAP_INTERVALS then ix
    else Enforced(Index(ix.gaps[1..], Remove(ix.content, ix.gaps[0].first, ix.gaps[0].last)))
  }

  function WithGap(ix: Index, i: Interval): (r: Index)
    requires WellFormed(ix) && Le(i.first, i.last)
    ensures WellFormed(r) && |r.gaps| <= MAX_GAP_INTERVALS
  {
    Enforced(Index(Insert(ix.gaps, i.first, i.last), Insert(ix.content, i.first, i.last)))
  }

  function WithGaps(ix: Index, ranges: seq<Interval>): (r: Index)
    requires WellFormed(ix) && forall i :: 0 <= i < |ranges| ==> Le(ranges[i].first, ranges[i].last)
    ensures WellFormed(r)
    decreases |ranges|
  {
    if ranges == [] then ix else WithGaps(WithGap(ix, ranges[0]), ranges[1..])
  }

  function WithoutRange(ix: Index, i: Interval): (r: Index)
    requires WellFormed(ix) && Le(i.first, i.last)
    ensures WellFormed(r) && |r.gaps| <= MAX_GAP_INTERVALS
  {
    Enforced(Index(Remove(ix.gaps, i.first, i.last), Remove(ix.content, i.first, i.last)))
  }

  predicate CompleteAt(groups: Groups, p: Location) {
    p.group in groups && p.obj in groups[p.group].objects && groups[p.group].objects[p.obj].complete
  }

  /** Everything the index calls known is a gap or a complete object. */
  ghost predicate Sound(ix: Index, groups: Groups) {
    WellFormed(ix) && forall p: Location :: Contains(ix.content, p) ==> Contains(ix.gaps, p) || CompleteAt(groups, p)
  }

  /** Enforcing the cap keeps the index sound, forgets only gaps, and forgets
      the lowest ones. */
  lemma {:induction false} EnforcedIsSound(ix: Index, groups: Groups)
    requires Sound(ix, groups)
    ensures Sound(Enforced(ix), groups)
    ensures forall p: Location :: Contains(Enforced(ix).gaps, p) ==> Contains(ix.gaps, p)
    ensures forall p: Location ::
              Contains(Enforced(ix).content, p) <==>
              Contains(ix.content, p) && (Contains(ix.gaps, p) ==> Contains(Enforced(ix).gaps, p))
    ensures forall p: Location, q: Location ::
              Contains(ix.gaps, p) && !Contains(Enforced(ix).gaps, p) && Contains(Enforced(ix).gaps, q) ==> Lt(p, q)
    decreases |ix.gaps|
  {
    if |ix.gaps| > MAX_GAP_INTERVALS {
      var low := ix.gaps[0];
      var next := Index(ix.gaps[1..], Remove(ix.content, low.first, low.last));
      RemoveMeaning(ix.content, low.first, low.last);
      forall p: Location | Contains(ix.gaps[1..], p)
        ensures Lt(low.last, p)
      {
        AboveExcludes(ix.gaps[1..], low.last, p);
      }
      EnforcedIsSound(next, groups);
    }
  }

  /** Recording a gap keeps the index sound; the new range is known to be
      absent unless the cap forgot it. */
  lemma WithGapIsSound(ix: Index, i: Interval, groups: Groups)
    requires Sound(ix, groups) && Le(i.first, i.last)
    ensures Sound(WithGap(ix, i), groups)
    ensures forall p: Location :: Contains(WithGap(ix, i).gaps, p) ==> Contains(ix.gaps, p) || Within(i, p)
    ensures forall p: Location, q: Location ::
              (Contains(ix.gaps, p) || Within(i, p)) && !Contains(WithGap(ix, i).gaps, p) && Contains(WithGap(ix, i).gaps, q)
              ==> Lt(p, q)
    ensures forall p: Location ::
              Contains(WithGap(ix, i).content, p) <==>
              && (Contains(ix.content, p) || Within(i, p))
              && (Contains(ix.gaps, p) || Within(i, p) ==> Contains(WithGap(ix, i).gaps, p))
  {
    InsertMeaning(ix.gaps, i.first, i.last);
    InsertMeaning(ix.content, i.first, i.last);
    EnforcedIsSound(Index(Insert(ix.gaps, i.first, i.last), Insert(ix.content, i.first, i.last)), groups);
  }

  lemma {:induction false} WithGapsIsSound(ix: Index, ranges: seq<Interval>, groups: Groups)
    requires Sound(ix, groups) && |ix.gaps| <= MAX_GAP_INTERVALS
    requires forall i :: 0 <= i < |ranges| ==> Le(ranges[i].first, ranges[i].last)
    ensures Sound(WithGaps(ix, ranges), groups) && |WithGaps(ix, ranges).gaps| <= MAX_GAP_INTERVALS
    decreases |ranges|
  {
    if ranges != [] {
      WithGapIsSound(ix, ranges[0], groups);
      WithGapsIsSound(WithGap(ix, ranges[0]), ranges[1..], groups);
    }
  }

  lemma WithoutRangeIsSound(ix: Index, i: Interval, groups: Groups)
    requires Sound(ix, groups) && Le(i.first, i.last)
    ensures Sound(WithoutRange(ix, i), groups)
    ensures forall p: Location :: Contains(WithoutRange(ix, i).content, p) ==> Contains(ix.content, p) && !Within(i, p)
    ensures forall p: Location :: Contains(WithoutRange(ix, i).gaps, p) ==> Contains(ix.gaps, p) && !Within(i, p)
    ensures |Remove(ix.gaps, i.first, i.last)| <= MAX_GAP_INTERVALS ==>
              forall p: Location :: Contains(ix.content, p) && !Within(i, p) ==> Contains(WithoutRange(ix, i).content, p)
  {
    RemoveMeaning(ix.gaps, i.first, i.last);
    RemoveMeaning(ix.content, i.first, i.last);
    var cut := Index(Remove(ix.gaps, i.first, i.last), Remove(ix.content, i.first, i.last));
    EnforcedIsSound(cut, groups);
  }

  // --- Objects -----------------------------------------------------------

  function BytesOf(payload: Option<Bytes>): Bytes {
    if payload.Some? then payload.value else []
  }

  ghost function Sizes(objects: map<Id, CacheEntry>): map<Id, nat> {
    map o | o in objects :: objects[o].payloadSize
  }

  /** A group's byte count is the sum of its objects' sizes, and no object is
      above its high-water mark. */
  ghost predicate GroupConsistent(id: Id, group: CacheGroup) {
    && group.totalBytes == Total(Sizes(group.objects))
    && (forall o :: o in group.objects ==> group.objects[o].payloadSize == |BytesOf(group.objects[o].payload)|)
    && (group.seenPriorGroupIdGap.Some? ==> group.seenPriorGroupIdGap.value <= id)
    && (forall o :: o in group.objects ==> o <= group.maxCachedObject)
  }

  /** A copy that starts at the beginning brings its own extensions and age. */
  function Refreshed(e: CacheEntry, w: Write): CacheEntry {
    if w.offset == 0 then e.(extensions := w.extensions, cachedAt := w.now) else e
  }

  /** A copy adds the bytes that it has beyond the cached ones. It adds none if it
      would leave a hole, or if it ends too early. */
  function Grown(e: CacheEntry, w: Write): CacheEntry {
    var end := w.offset + |BytesOf(w.payload)|;
    if w.offset <= e.payloadSize < end then
      e.(payload := Some(BytesOf(e.payload) + BytesOf(w.payload)[e.payloadSize - w.offset..]), payloadSize := end)
    else e
  }

  /** What a further copy of a cached object must not contradict. */
  function Conflict(e: CacheEntry, w: Write): Option<PublishError> {
    if w.status != e.status then Some(StatusChanged)
    else if
      && w.status.Normal? && w.offset == 0 && w.complete && e.complete
      && (w.payload.Some? != e.payload.Some? || (w.payload.Some? && |w.payload.value| != e.payloadSize))
    then Some(PayloadMismatch)
    else if e.datagram != w.datagram then Some(ForwardingPreferenceMismatch)
    else None
  }

  function NewEntry(w: Write): CacheEntry {
    CacheEntry(w.subgroup, w.status, w.extensions, w.payload, |BytesOf(w.payload)|, w.complete, w.datagram, w.now)
  }

  datatype Stored = Reject(error: PublishError) | Keep(entry: Option<CacheEntry>, settled: bool)

  /** What one write does to the entry it addresses. `settled` is false when the
      write stops early because it brought the entry nothing to record. */
  function StoreEntry(prior: Option<CacheEntry>, w: Write): Stored {
    if prior.None? then
      // Without an entry, only a copy from the start can be kept.
      if w.offset > 0 then Keep(None, false) else Keep(Some(NewEntry(w)), true)
    else
      var conflict := Conflict(prior.value, w);
      if conflict.Some? then Reject(conflict.value)
      else
        var e := Refreshed(prior.value, w);
        if e.complete then Keep(Some(e), false)
        else
          var grown := Grown(e, w);
          if !w.complete || grown.payloadSize != w.offset + |BytesOf(w.payload)| then Keep(Some(grown), false)
          else Keep(Some(grown.(complete := true)), true)
  }

  // --- Prior-gap extensions ------------------------------------------------

  /** Only the nearest MAX_GAP_VALIDATION groups are checked. */
  predicate GroupGapConflict(groups: Groups, group: Id, gap: nat)
    requires gap <= group
  {
    exists g :: g in groups && group - CheckCount(gap) <= g < group && groups[g].objects != map[]
  }

  predicate ObjectGapConflict(group: CacheGroup, obj: Id, gap: nat)
    requires gap <= obj
  {
    exists o :: o in group.objects && obj - CheckCount(gap) <= o < obj
  }

  function CheckCount(gap: nat): nat {
    if gap < MAX_GAP_VALIDATION then gap else MAX_GAP_VALIDATION
  }

  datatype GapStep = GapStep(error: Option<PublishError>, seen: Option<nat>, ranges: seq<Interval>)

  function PriorGroupStep(groups: Groups, loc: Location, ext: Extensions): (r: GapStep)
    requires loc.group in groups
    ensures RangesOk(r.ranges)
    ensures r.seen == groups[loc.group].seenPriorGroupIdGap || (r.seen.Some? && r.seen.value <= loc.group)
  {
    var seen := groups[loc.group].seenPriorGroupIdGap;
    if ext.priorGroupIdGap.None? then GapStep(None, seen, [])
    else
      var gap := ext.priorGroupIdGap.value;
      if gap > loc.group then GapStep(Some(PriorGroupGapTooLarge), seen, [])
      else if seen.Some? then
        GapStep(if seen.value != gap then Some(PriorGroupGapInconsistent) else None, seen, [])
      else if gap == 0 then GapStep(None, Some(0), [])
      else if GroupGapConflict(groups, loc.group, gap) then GapStep(Some(PriorGroupGapCoversObject), Some(gap), [])
      else GapStep(None, Some(gap), [Interval(GroupStart(loc.group - gap), GroupEnd(loc.group - 1))])
  }

  function PriorObjectStep(group: CacheGroup, loc: Location, ext: Extensions): (r: GapStep)
    ensures RangesOk(r.ranges)
  {
    if ext.priorObjectIdGap.None? then GapStep(None, None, [])
    else
      var gap := ext.priorObjectIdGap.value;
      if gap > loc.obj then GapStep(Some(PriorObjectGapTooLarge), None, [])
      else if gap == 0 then GapStep(None, None, [])
      else if ObjectGapConflict(group, loc.obj, gap) then GapStep(Some(PriorObjectGapCoversObject), None, [])
      else GapStep(None, None, [Interval(Position(loc.group, loc.obj - gap), Position(loc.group, loc.obj - 1))])
  }

  /** A marker object proves that nothing follows it in its group, and an
      end-of-track marker that no later group exists. */
  function EndRanges(loc: Location, status: ObjectStatus): (r: seq<Interval>)
    ensures RangesOk(r)
  {
    if status.Normal? then []
    else
      (if NextInGroup(loc).Some? then [Interval(NextInGroup(loc).value, GroupEnd(loc.group))] else [])
      + (if status.EndOfTrack? && NextGroup(loc).Some? then [Interval(NextGroup(loc).value, LAST)] else [])
  }

  // --- A whole write -------------------------------------------------------

  datatype Cached = Cached(error: Option<PublishError>, group: CacheGroup, index: Index)

  function Lookup(objects: map<Id, CacheEntry>, o: Id): Option<CacheEntry> {
    if o in objects then Some(objects[o]) else None
  }

  /** A Prior Group ID Gap is taken once, at its first mention in the group. Then it
      marks exactly the groups it names, unless one of the nearest holds an object. */
  lemma PriorGroupStepMeans(groups: Groups, loc: Location, ext: Extensions, p: Location)
    requires loc.group in groups
    ensures var r := PriorGroupStep(groups, loc, ext);
            var first := ext.priorGroupIdGap.Some? && groups[loc.group].seenPriorGroupIdGap.None?;
            && (r.error.Some? ==> r.ranges == [])
            && (r.error.None? ==>
                  (InSomeInterval(r.ranges, p) <==> first && loc.group <= p.group + ext.priorGroupIdGap.value && p.group < loc.group))
            && (first && r.error.None? ==> r.seen == ext.priorGroupIdGap)
            && (first ==> (r.error.Some? <==>
                  ext.priorGroupIdGap.value > loc.group || GroupGapConflict(groups, loc.group, ext.priorGroupIdGap.value)))
            && (ext.priorGroupIdGap.Some? && !first ==> (r.error.Some? <==>
                  ext.priorGroupIdGap.value > loc.group || Some(ext.priorGroupIdGap.value) != groups[loc.group].seenPriorGroupIdGap))
            && (ext.priorGroupIdGap.None? ==> r.error.None?)
            && (!first ==> r.seen == groups[loc.group].seenPriorGroupIdGap)
  {
    var r := PriorGroupStep(groups, loc, ext);
    if r.ranges != [] {
      assert InSomeInterval(r.ranges, p) <==> Within(r.ranges[0], p);
    }
  }

  /** A conflict is a cached object in one of the named groups, among the nearest. */
  lemma GroupConflictMeans(groups: Groups, group: Id, gap: nat)
    requires gap <= group
    ensures GroupGapConflict(groups, group, gap) <==>
            exists g, o :: g in groups && o in groups[g].objects && g < group <= g + gap && group <= g + MAX_GAP_VALIDATION
  {
    forall g | g in groups && groups[g].objects != map[]
      ensures exists o :: o in groups[g].objects
    {
      var o :| o in groups[g].objects;
    }
  }

  lemma ObjectConflictMeans(group: CacheGroup, obj: Id, gap: nat)
    requires gap <= obj
    ensures ObjectGapConflict(group, obj, gap) <==>
            exists o :: o in group.objects && o < obj <= o + gap && obj <= o + MAX_GAP_VALIDATION
  {
  }

  /** A Prior Object ID Gap marks exactly the objects it names, in the same group. */
  lemma PriorObjectStepMeans(group: CacheGroup, loc: Location, ext: Extensions, p: Location)
    ensures var r := PriorObjectStep(group, loc, ext);
            && (r.error.Some? ==> r.ranges == [])
            && (r.error.None? ==>
                  (InSomeInterval(r.ranges, p) <==>
                   ext.priorObjectIdGap.Some? && p.group == loc.group && p.obj < loc.obj <= p.obj + ext.priorObjectIdGap.value))
            && (r.error.Some? <==>
                  ext.priorObjectIdGap.Some? &&
                  (ext.priorObjectIdGap.value > loc.obj || ObjectGapConflict(group, loc.obj, ext.priorObjectIdGap.value)))
  {
    var r := PriorObjectStep(group, loc, ext);
    if r.ranges != [] {
      assert InSomeInterval(r.ranges, p) <==> Within(r.ranges[0], p);
    }
  }

  /** An end marker marks exactly what follows it: in its group, or in the track. */
  lemma EndRangesMean(loc: Location, status: ObjectStatus, p: Location)
    ensures InSomeInterval(EndRanges(loc, status), p) <==>
            !status.Normal? && Lt(loc, p) && (status.EndOfTrack? || p.group == loc.group)
  {
    var r := EndRanges(loc, status);
    if |r| == 1 {
      assert InSomeInterval(r, p) <==> Within(r[0], p);
    } else if |r| == 2 {
      assert InSomeInterval(r, p) <==> Within(r[0], p) || Within(r[1], p);
    }
  }

  /** What a write says about other positions, before its object is stored. */
  function NoteGaps(groups: Groups, ix: Index, w: Write): (r: Cached)
    requires w.loc.group in groups && WellFormed(ix)
    ensures WellFormed(r.index)
  {
    var group := groups[w.loc.group];
    if Contains(ix.gaps, w.loc) then Cached(Some(ObjectInKnownGap), group, ix)
    else
      var before := PriorGroupStep(groups, w.loc, w.extensions);
      var group1 := group.(seenPriorGroupIdGap := before.seen);
      var ix1 := WithGaps(ix, before.ranges);
      if before.error.Some? then Cached(before.error, group1, ix1)
      else
        var inside := PriorObjectStep(group1, w.loc, w.extensions);
        var ix2 := WithGaps(ix1, inside.ranges);
        if inside.error.Some? then Cached(inside.error, group1, ix2)
        else Cached(None, group1.(endOfGroup := group1.endOfGroup || !w.status.Normal?), WithGaps(ix2, EndRanges(w.loc, w.status)))
  }

  /** The group and index after one write, and the error it reports. */
  function CacheObject(groups: Groups, ix: Index, w: Write): (r: Cached)
    requires w.loc.group in groups && WellFormed(ix)
    ensures WellFormed(r.index)
  {
    var noted := NoteGaps(groups, ix, w);
    if noted.error.Some? then noted else StoreInGroup(noted.group, noted.index, w)
  }

  function StoreInGroup(group: CacheGroup, ix: Index, w: Write): (r: Cached)
    requires WellFormed(ix)
    ensures WellFormed(r.index)
  {
    var prior := Lookup(group.objects, w.loc.obj);
    match StoreEntry(prior, w)
    case Reject(e) => Cached(Some(e), group, ix)
    case Keep(None, _) => Cached(None, group, ix)
    case Keep(Some(e), settled) =>
      var stored := group.(
        objects := group.objects[w.loc.obj := e],
        totalBytes := group.totalBytes + (e.payloadSize - (if prior.Some? then prior.value.payloadSize else 0)),
        maxCachedObject := if settled && w.loc.obj >= group.maxCachedObject then w.loc.obj else group.maxCachedObject);
      Cached(None, stored, if settled && w.complete then ix.(content := Insert(ix.content, w.loc, w.loc)) else ix)
  }

  /** A write is refused exactly when its position is known not to exist, when its prior
      gaps contradict what is cached or was said before, or when its object does. */
  ghost predicate Refused(groups: Groups, ix: Index, w: Write)
    requires w.loc.group in groups
  {
    var group, before, inside := groups[w.loc.group], w.extensions.priorGroupIdGap, w.extensions.priorObjectIdGap;
    || Contains(ix.gaps, w.loc)
    || (before.Some? &&
        (before.value > w.loc.group ||
         (if group.seenPriorGroupIdGap.Some? then group.seenPriorGroupIdGap != before
          else GroupGapConflict(groups, w.loc.group, before.value))))
    || (inside.Some? && (inside.value > w.loc.obj || ObjectGapConflict(group, w.loc.obj, inside.value)))
    || StoreEntry(Lookup(group.objects, w.loc.obj), w).Reject?
  }

  /** What one write does to the objects of its group: an accepted one stores its own and
      touches no other, and indexes it once it is complete; a refused one touches none. */
  lemma CacheObjectMeans(groups: Groups, ix: Index, w: Write, o: Id)
    requires w.loc.group in groups && WellFormed(ix)
    ensures var r := CacheObject(groups, ix, w);
            var before := Lookup(groups[w.loc.group].objects, o);
            var after := Lookup(r.group.objects, o);
            && (r.error.Some? <==> Refused(groups, ix, w))
            && (r.error.Some? || o != w.loc.obj ==> after == before)
            && (r.error.None? && o == w.loc.obj ==> StoreEntry(before, w) == Keep(after, StoreEntry(before, w).settled))
            && (r.error.None? && o == w.loc.obj && after.Some? && after.value.complete && (before.None? || !before.value.complete) ==>
                  Contains(r.index.content, w.loc))
            && (r.error.None? && o == w.loc.obj && before.Some? && before.value.complete ==> r.index == NoteGaps(groups, ix, w).index)
            && (r.error.None? ==> r.group.endOfGroup == (groups[w.loc.group].endOfGroup || w.status != Normal))
  {
    hide WithGaps, Contains, Insert, EndRanges;
    NoteGapsMeans(groups, ix, w);
    var noted := NoteGaps(groups, ix, w);
    hide NoteGaps, Refused;
    InsertMeaning(noted.index.content, w.loc, w.loc);
    assert Within(Interval(w.loc, w.loc), w.loc);
  }

  lemma NoteGapsMeans(groups: Groups, ix: Index, w: Write)
    requires w.loc.group in groups && WellFormed(ix)
    ensures var r := NoteGaps(groups, ix, w);
            var group := groups[w.loc.group];
            && (r.error.Some? || StoreEntry(Lookup(group.objects, w.loc.obj), w).Reject? <==> Refused(groups, ix, w))
            && r.group.objects == group.objects
            && (r.error.None? ==> r.group.endOfGroup == (group.endOfGroup || w.status != Normal))
  {
    hide WithGaps, Contains, EndRanges, StoreEntry;
  }

  // --- What every write keeps ----------------------------------------------

  lemma NoteGapsFrame(groups: Groups, ix: Index, w: Write)
    requires w.loc.group in groups && WellFormed(ix)
    ensures var r := NoteGaps(groups, ix, w);
            var g := groups[w.loc.group];
            && r.group.objects == g.objects && r.group.totalBytes == g.totalBytes
            && (GroupConsistent(w.loc.group, g) ==> GroupConsistent(w.loc.group, r.group))
  {
    hide PriorGroupStep, PriorObjectStep, EndRanges, WithGaps, Contains, Total, Sizes;
  }

  lemma NoteGapsSound(groups: Groups, ix: Index, w: Write)
    requires w.loc.group in groups
    requires Sound(ix, groups) && |ix.gaps| <= MAX_GAP_INTERVALS
    ensures var r := NoteGaps(groups, ix, w);
            Sound(r.index, groups) && |r.index.gaps| <= MAX_GAP_INTERVALS
  {
    var before := PriorGroupStep(groups, w.loc, w.extensions);
    var ix1 := WithGaps(ix, before.ranges);
    WithGapsIsSound(ix, before.ranges, groups);
    var inside := PriorObjectStep(groups[w.loc.group].(seenPriorGroupIdGap := before.seen), w.loc, w.extensions);
    WithGapsIsSound(ix1, inside.ranges, groups);
    WithGapsIsSound(WithGaps(ix1, inside.ranges), EndRanges(w.loc, w.status), groups);
  }

  /** An entry never shrinks, and a complete one stays complete. */
  lemma StoreEntryGrows(prior: Option<CacheEntry>, w: Write)
    requires StoreEntry(prior, w).Keep?
    ensures prior.Some? ==> StoreEntry(prior, w).entry.Some?
    ensures var e := StoreEntry(prior, w).entry;
            prior.Some? ==>
              && prior.value.payloadSize <= e.value.payloadSize
              && (prior.value.complete ==> e.value.complete && e.value.payload == prior.value.payload)
    ensures var r := StoreEntry(prior, w);
            r.settled && w.complete ==> r.entry.Some? && r.entry.value.complete
  {
  }

  lemma ReplaceObject(id: Id, group: CacheGroup, o: Id, e: CacheEntry, r: CacheGroup)
    requires GroupConsistent(id, group)
    requires e.payloadSize == |BytesOf(e.payload)|
    requires r.maxCachedObject == (if o in group.objects || o < group.maxCachedObject then group.maxCachedObject else o)
    requires r.objects == group.objects[o := e] && r.seenPriorGroupIdGap == group.seenPriorGroupIdGap
    requires r.totalBytes == group.totalBytes + e.payloadSize - (if o in group.objects then group.objects[o].payloadSize else 0)
    ensures GroupConsistent(id, r)
  {
    var sizes := Sizes(group.objects);
    assert Sizes(r.objects) == sizes[o := e.payloadSize];
    TotalSet<Id>(sizes, o, e.payloadSize);
  }

  lemma StoreInGroupConsistent(id: Id, group: CacheGroup, ix: Index, w: Write)
    requires GroupConsistent(id, group) && WellFormed(ix)
    ensures GroupConsistent(id, StoreInGroup(group, ix, w).group)
  {
    var prior := Lookup(group.objects, w.loc.obj);
    var s := StoreEntry(prior, w);
    if s.Keep? && s.entry.Some? {
      var r := StoreInGroup(group, ix, w).group;
      assert s.entry.value.payloadSize == |BytesOf(s.entry.value.payload)|;
      ReplaceObject(id, group, w.loc.obj, s.entry.value, r);
    }
  }

  lemma StoreInGroupSound(groups: Groups, group: CacheGroup, ix: Index, w: Write)
    requires w.loc.group in groups && group.objects == groups[w.loc.group].objects
    requires Sound(ix, groups)
    ensures var r := StoreInGroup(group, ix, w);
            Sound(r.index, groups[w.loc.group := r.group]) && r.index.gaps == ix.gaps
  {
    var r := StoreInGroup(group, ix, w);
    var after := groups[w.loc.group := r.group];
    var s := StoreEntry(Lookup(group.objects, w.loc.obj), w);
    if s.Keep? {
      StoreEntryGrows(Lookup(group.objects, w.loc.obj), w);
    }
    assert forall p: Location :: CompleteAt(groups, p) ==> CompleteAt(after, p);
    InsertMeaning(ix.content, w.loc, w.loc);
  }

  /** Index soundness over one write: no write, accepted or rejected, makes the
      index claim a location that is neither a gap nor a complete object, and
      none leaves more gap intervals than the cap. */
  lemma CacheObjectSound(groups: Groups, ix: Index, w: Write)
    requires w.loc.group in groups
    requires Sound(ix, groups) && |ix.gaps| <= MAX_GAP_INTERVALS
    ensures var r := CacheObject(groups, ix, w);
            Sound(r.index, groups[w.loc.group := r.group]) && |r.index.gaps| <= MAX_GAP_INTERVALS
  {
    var noted := NoteGaps(groups, ix, w);
    NoteGapsSound(groups, ix, w);
    NoteGapsFrame(groups, ix, w);
    if noted.error.Some? {
      assert forall p: Location :: CompleteAt(groups, p) <==> CompleteAt(groups[w.loc.group := noted.group], p);
    } else {
      StoreInGroupSound(groups, noted.group, noted.index, w);
    }
  }

  /** Byte accounting over one write: the group's count follows its objects, and
      a rejected write changes neither. */
  lemma CacheObjectConsistent(groups: Groups, ix: Index, w: Write)
    requires w.loc.group in groups && WellFormed(ix)
    requires GroupConsistent(w.loc.group, groups[w.loc.group])
    ensures var r := CacheObject(groups, ix, w);
            var g := groups[w.loc.group];
            && GroupConsistent(w.loc.group, r.group)
            && r.group.totalBytes >= g.totalBytes
            && (r.error.Some? ==> r.group.objects == g.objects && r.group.totalBytes == g.totalBytes)
  {
    var noted := NoteGaps(groups, ix, w);
    NoteGapsFrame(groups, ix, w);
    if noted.error.None? {
      StoreInGroupConsistent(w.loc.group, noted.group, noted.index, w);
      var prior := Lookup(noted.group.objects, w.loc.obj);
      if StoreEntry(prior, w).Keep? {
        StoreEntryGrows(prior, w);
      }
    }
  }
}
