/** How an upstream fetch response, oldest first, becomes recorded gaps. The
    writeback's cursor walks the range; what it passes over between events is
    proved absent, but only below the End Location of the FETCH_OK, which may
    arrive before, amid or after the response. */
module FetchGaps {
  import opened Locations
  import opened IntervalSets
  import opened RangeAlgebra

  lemma InSomeConcat(a: seq<Interval>, b: seq<Interval>)
    ensures forall p: Location :: InSomeInterval(a + b, p) <==> InSomeInterval(a, p) || InSomeInterval(b, p)
  {
    forall p: Location
      ensures InSomeInterval(a + b, p) <==> InSomeInterval(a, p) || InSomeInterval(b, p)
    {
      if InSomeInterval(a, p) {
        var i :| 0 <= i < |a| && Within(a[i], p);
        assert Within((a + b)[i], p);
      }
      if InSomeInterval(b, p) {
        var i :| 0 <= i < |b| && Within(b[i], p);
        assert Within((a + b)[|a| + i], p);
      }
    }
  }

  lemma InSomeOne(i: Interval)
    ensures forall p: Location :: InSomeInterval([i], p) <==> Within(i, p)
  {
    forall p: Location
      ensures InSomeInterval([i], p) <==> Within(i, p)
    {
      assert [i][0] == i;
    }
  }

  lemma InNone()
    ensures forall p: Location :: !InSomeInterval([], p)
  {
  }

  lemma InSomeAppend(a: seq<Interval>, i: Interval)
    ensures forall p: Location :: InSomeInterval(a + [i], p) <==> InSomeInterval(a, p) || Within(i, p)
  {
    InSomeConcat(a, [i]);
    InSomeOne(i);
  }

  // --- Marked, handed over and held back -------------------------------------------------

  predicate Under(p: Location, bound: Option<Location>) {
    bound.Some? && Lt(p, bound.value)
  }

  /** Before the FETCH_OK, what has been marked is handed over or held back; what
      is handed over is below a received object. */
  ghost predicate Split(marked: seq<Interval>, handed: seq<Interval>, pending: seq<Interval>, largest: Option<Location>) {
    && (forall p: Location :: InSomeInterval(marked, p) <==> InSomeInterval(handed, p) || InSomeInterval(pending, p))
    && (forall p: Location :: InSomeInterval(handed, p) ==> Under(p, largest))
  }

  /** After it, and as long as upstream keeps its promise to send nothing at or past
      the end, exactly the marked positions below the end have been handed over. */
  ghost predicate Bounded(
    marked: seq<Interval>, handed: seq<Interval>, largest: Option<Location>, end: Location, received: set<Location>)
  {
    && ((forall r :: r in received ==> Lt(r, end)) ==>
          forall p: Location :: InSomeInterval(handed, p) <==> InSomeInterval(marked, p) && Lt(p, end))
    && (forall p: Location :: InSomeInterval(handed, p) ==> InSomeInterval(marked, p) && (Lt(p, end) || Under(p, largest)))
  }

  ghost predicate Accounted(
    marked: seq<Interval>, handed: seq<Interval>, pending: seq<Interval>, largest: Option<Location>,
    end: Option<Location>, received: set<Location>)
  {
    if end.None? then Split(marked, handed, pending, largest)
    else pending == [] && Bounded(marked, handed, largest, end.value, received)
  }

  lemma AccountedAfterHold(
    marked: seq<Interval>, handed: seq<Interval>, pending: seq<Interval>, largest: Option<Location>, i: Interval,
    handed': seq<Interval>, pending': seq<Interval>)
    requires Split(marked, handed, pending, largest)
    requires forall p: Location ::
               InSomeInterval(handed', p) <==> InSomeInterval(handed, p) || (Within(i, p) && Under(p, largest))
    requires forall p: Location ::
               InSomeInterval(pending', p) <==> InSomeInterval(pending, p) || (Within(i, p) && !Under(p, largest))
    ensures Split(marked + [i], handed', pending', largest)
  {
    hide InSomeInterval, Within, Under;
    InSomeAppend(marked, i);
  }

  lemma AccountedAfterHand(
    marked: seq<Interval>, handed: seq<Interval>, largest: Option<Location>, end: Location, received: set<Location>, i: Interval,
    handed': seq<Interval>)
    requires Bounded(marked, handed, largest, end, received)
    requires forall p: Location :: InSomeInterval(handed', p) <==> InSomeInterval(handed, p) || (Within(i, p) && Lt(p, end))
    ensures Bounded(marked + [i], handed', largest, end, received)
  {
    hide InSomeInterval, Within, Under;
    InSomeAppend(marked, i);
  }

  /** The FETCH_OK settles what was held back. */
  lemma AccountedAfterOk(
    marked: seq<Interval>, handed: seq<Interval>, pending: seq<Interval>, largest: Option<Location>, end: Location,
    received: set<Location>, handed': seq<Interval>)
    requires Split(marked, handed, pending, largest) && (largest.Some? ==> largest.value in received)
    requires forall p: Location ::
               InSomeInterval(handed', p) <==> InSomeInterval(handed, p) || (InSomeInterval(pending, p) && Lt(p, end))
    ensures Bounded(marked, handed', largest, end, received)
  {
    hide InSomeInterval;
  }

  lemma AccountedAfterReceive(
    marked: seq<Interval>, handed: seq<Interval>, pending: seq<Interval>, largest: Option<Location>,
    end: Option<Location>, received: set<Location>, loc: Location)
    requires Accounted(marked, handed, pending, largest, end, received)
    ensures Accounted(marked, handed, pending, LargestOf(largest, loc), end, received + {loc})
  {
    hide InSomeInterval;
  }

  function LargestOf(largest: Option<Location>, loc: Location): Option<Location> {
    if largest.None? || Lt(largest.value, loc) then Some(loc) else largest
  }

  // --- What the marks mean ------------------------------------------------------------------

  /** Marked positions are in the range and not unknown; they were not received,
      except for exactly the objects that were cut off. */
  ghost predicate Marks(
    range: Span, marked: seq<Interval>, received: set<Location>, unknown: seq<Interval>, cut: set<Location>)
  {
    && (forall p: Location :: InSomeInterval(marked, p) ==> InSpan(range, p) && !InSomeInterval(unknown, p))
    && (forall p: Location :: p in received && InSomeInterval(marked, p) <==> p in cut)
  }

  ghost predicate IsLargest(largest: Option<Location>, received: set<Location>) {
    && (largest.Some? ==> largest.value in received)
    && (forall r :: r in received ==> largest.Some? && Le(r, largest.value))
  }

  lemma LargestAfterReceive(largest: Option<Location>, received: set<Location>, loc: Location)
    requires IsLargest(largest, received)
    ensures IsLargest(LargestOf(largest, loc), received + {loc})
  {
  }

  lemma MarksAfterMark(
    range: Span, marked: seq<Interval>, received: set<Location>, unknown: seq<Interval>, cut: set<Location>,
    i: Interval, cursor: Location, target: Location)
    requires Marks(range, marked, received, unknown, cut)
    requires forall p: Location :: Within(i, p) <==> Le(cursor, p) && Lt(p, target)
    requires Le(range.first, cursor) && Le(target, range.end) && Lt(cursor, target)
    requires forall p: Location :: p in received && Le(cursor, p) && Lt(p, target) ==> p == cursor
    requires forall p: Location :: InSomeInterval(unknown, p) ==> Lt(p, cursor)
    ensures Marks(range, marked + [i], received, unknown, cut + if cursor in received then {cursor} else {})
  {
    hide InSomeInterval;
    InSomeAppend(marked, i);
  }

  lemma MarksAfterReceive(
    range: Span, marked: seq<Interval>, received: set<Location>, unknown: seq<Interval>, cut: set<Location>, loc: Location)
    requires Marks(range, marked, received, unknown, cut) && !InSomeInterval(marked, loc)
    ensures Marks(range, marked, received + {loc}, unknown, cut)
  {
    hide InSomeInterval;
  }

  lemma MarksAfterDeclare(
    range: Span, marked: seq<Interval>, received: set<Location>, unknown: seq<Interval>, cut: set<Location>, i: Interval)
    requires Marks(range, marked, received, unknown, cut)
    requires forall p: Location :: InSomeInterval(marked, p) ==> Lt(p, i.first)
    ensures Marks(range, marked, received, unknown + [i], cut)
  {
    hide InSomeInterval;
    InSomeAppend(unknown, i);
  }

  /** Until the response ends, nothing was marked, received or declared unknown past
      the last event, and the cursor is past it or rests on it. */
  ghost predicate Behind(
    range: Span, marked: seq<Interval>, received: set<Location>, unknown: seq<Interval>, last: Option<Location>,
    busy: bool, cursor: Location)
  {
    && (forall p: Location :: InSomeInterval(marked, p) ==> Under(p, last))
    && (forall r :: r in received ==> last.Some? && Le(r, last.value))
    && (forall p: Location :: InSomeInterval(unknown, p) ==> last.Some? && Le(p, last.value) && Lt(p, cursor))
    && (busy ==> last == Some(cursor) && cursor in received && Lt(cursor, range.end))
    && (!busy && last.Some? ==> Lt(last.value, cursor))
    && Le(range.first, cursor) && Le(cursor, range.end)
  }

  /** Everything so far is behind the next event, and no further than the cursor. */
  lemma AllBehind(
    range: Span, marked: seq<Interval>, received: set<Location>, unknown: seq<Interval>, last: Option<Location>,
    busy: bool, cursor: Location)
    requires Behind(range, marked, received, unknown, last, busy, cursor)
    ensures forall p: Location :: p in received ==> Lt(p, cursor) || (busy && p == cursor)
    ensures forall p: Location :: InSomeInterval(marked, p) || InSomeInterval(unknown, p) ==> Lt(p, cursor)
    ensures forall p: Location :: p in received || InSomeInterval(marked, p) || InSomeInterval(unknown, p) ==>
              last.Some? && Le(p, last.value)
    ensures busy ==> cursor in received && Lt(cursor, range.end) && last == Some(cursor)
    ensures !busy ==> cursor !in received
    ensures Le(range.first, cursor) && Le(cursor, range.end)
  {
    hide InSomeInterval;
  }

  lemma BehindAfterTake(
    range: Span, marked: seq<Interval>, received: set<Location>, unknown: seq<Interval>, last: Option<Location>,
    busy: bool, cursor: Location, loc: Location, marked': seq<Interval>)
    requires Behind(range, marked, received, unknown, last, busy, cursor)
    requires InSpan(range, loc) && (last.Some? ==> Lt(last.value, loc))
    requires forall p: Location ::
               InSomeInterval(marked', p) <==> InSomeInterval(marked, p) || (Le(cursor, p) && Lt(p, loc))
    ensures Behind(range, marked', received + {loc}, unknown, Some(loc), true, loc)
  {
    hide InSomeInterval;
  }

  lemma BehindAfterDeclare(
    range: Span, marked: seq<Interval>, received: set<Location>, unknown: seq<Interval>, last: Option<Location>,
    busy: bool, cursor: Location, i: Interval, landing: Location)
    requires Behind(range, marked, received, unknown, last, busy, cursor)
    requires Le(range.first, i.last) && (last.Some? ==> Lt(last.value, i.last)) && Lt(i.last, landing) && Le(landing, range.end)
    ensures Behind(range, marked, received, unknown + [i], Some(i.last), false, landing)
  {
    hide InSomeInterval;
    InSomeAppend(unknown, i);
  }

  // --- The writeback ----------------------------------------------------------------------------

  class FetchWriteback {
    const range: Span
    var cursor: Location
    var upstreamEnd: Option<Location>
    var largestReceived: Option<Location>
    var pendingGaps: seq<Interval>

    /** Nothing of the range is left for the cursor. */
    var closed: bool

    /** The insertGap calls made on the track. */
    var handed: seq<Interval>

    /** What the cursor has passed over, what was received, what upstream declared
        unknown, and the received objects that another event cut off. */
    ghost var marked: seq<Interval>
    ghost var received: set<Location>
    ghost var unknown: seq<Interval>
    ghost var cut: set<Location>

    /** The position of the last event, and whether the cursor rests there on an object
        that is not complete or was refused. */
    ghost var last: Option<Location>
    ghost var busy: bool

    ghost predicate GapsOk()
      reads this`pendingGaps, this`handed, this`marked, this`largestReceived, this`upstreamEnd, this`received
    {
      RangesOk(pendingGaps) && RangesOk(handed) && Accounted(marked, handed, pendingGaps, largestReceived, upstreamEnd, received)
    }

    ghost predicate Valid()
      reads this
    {
      && Le(range.first, range.end) && GapsOk() && IsLargest(largestReceived, received)
      && Marks(range, marked, received, unknown, cut)
      && (!closed ==> Behind(range, marked, received, unknown, last, busy, cursor))
    }

    /** Every gap recorded on the track is a position of the range that was not declared
        unknown, and lies below the FETCH_OK's end or below a received object. It was
        not received either, unless its object was cut off. */
    lemma HandedGapsAreProved(p: Location)
      requires Valid() && InSomeInterval(handed, p)
      ensures InSpan(range, p) && !InSomeInterval(unknown, p)
      ensures p in received <==> p in cut
      ensures Under(p, upstreamEnd) || exists r :: r in received && Lt(p, r)
    {
      assert InSomeInterval(marked, p);
      if Under(p, largestReceived) {
        assert largestReceived.value in received;
      }
    }

    /** A received object is recorded as a gap exactly when it was cut off. */
    lemma CutOffObjectsAreHanded(p: Location)
      requires Valid() && upstreamEnd.Some? && forall r :: r in received ==> Lt(r, upstreamEnd.value)
      ensures p in received && InSomeInterval(handed, p) <==> p in cut
    {
    }

    /** When the FETCH_OK arrived makes no difference to what is recorded. */
    lemma FetchOkOrderDoesNotMatter(p: Location)
      requires Valid() && upstreamEnd.Some? && forall r :: r in received ==> Lt(r, upstreamEnd.value)
      ensures InSomeInterval(handed, p) <==> InSomeInterval(marked, p) && Lt(p, upstreamEnd.value)
    {
    }

    /** The cursor starts behind any gaps already known at the front. */
    constructor (start: Location, end: Location, landing: Location)
      requires Le(start, end) && Le(start, landing) && Le(landing, end)
      ensures Valid() && upstreamEnd.None? && handed == [] && !busy && !closed && last.None? && cursor == landing
      ensures received == {} && unknown == [] && cut == {} && marked == [] && range == Span(start, end)
    {
      range, cursor := Span(start, end), landing;
      upstreamEnd, largestReceived, pendingGaps, handed := None, None, [], [];
      marked, received, unknown, cut := [], {}, [], {};
      closed, last, busy := false, None, false;
    }

    /** Hands over what is proved now and holds the rest back for the FETCH_OK. */
    method InsertGap(i: Interval)
      requires Le(i.first, i.last) && GapsOk()
      modifies this`pendingGaps, this`handed, this`marked
      ensures GapsOk() && marked == old(marked) + [i] && old(handed) <= handed
    {
      hide InSomeInterval, Split, Bounded;
      if upstreamEnd.None? {
        HoldBack(i);
        AccountedAfterHold(marked, old(handed), old(pendingGaps), largestReceived, i, handed, pendingGaps);
      } else {
        HandBelow(i, upstreamEnd.value);
        AccountedAfterHand(marked, old(handed), largestReceived, upstreamEnd.value, received, i, handed);
      }
      marked := marked + [i];
    }

    /** Without a FETCH_OK, a received object is a lower bound for its end: what lies
        under the largest one is handed over at once, the remainder is kept. */
    method HoldBack(i: Interval)
      requires Le(i.first, i.last) && RangesOk(pendingGaps) && RangesOk(handed)
      modifies this`pendingGaps, this`handed
      ensures RangesOk(pendingGaps) && RangesOk(handed) && old(handed) <= handed
      ensures forall p: Location ::
                InSomeInterval(handed, p) <==> InSomeInterval(old(handed), p) || (Within(i, p) && Under(p, largestReceived))
      ensures forall p: Location ::
                InSomeInterval(pendingGaps, p) <==> InSomeInterval(old(pendingGaps), p) || (Within(i, p) && !Under(p, largestReceived))
    {
      hide InSomeInterval;
      var start := i.first;
      if largestReceived.Some? && Lt(start, largestReceived.value) {
        var finalEnd := Min(i.last, Prev(largestReceived.value).value);
        Hand(Interval(start, finalEnd));
        if finalEnd == i.last {
          return;
        }
        start := Next(finalEnd).value;
      }
      InSomeAppend(pendingGaps, Interval(start, i.last));
      pendingGaps := pendingGaps + [Interval(start, i.last)];
    }

    method HandBelow(i: Interval, end: Location)
      requires Le(i.first, i.last) && RangesOk(handed)
      modifies this`handed
      ensures RangesOk(handed) && old(handed) <= handed
      ensures forall p: Location ::
                InSomeInterval(handed, p) <==> InSomeInterval(old(handed), p) || (Within(i, p) && Lt(p, end))
    {
      hide InSomeInterval;
      if Le(end, i.first) {
        return;
      }
      Hand(Interval(i.first, Min(i.last, Prev(end).value)));
    }

    method Hand(i: Interval)
      requires Le(i.first, i.last) && RangesOk(handed)
      modifies this`handed
      ensures handed == old(handed) + [i] && RangesOk(handed)
      ensures forall p: Location :: InSomeInterval(handed, p) <==> InSomeInterval(old(handed), p) || Within(i, p)
    {
      hide InSomeInterval;
      InSomeAppend(handed, i);
      handed := handed + [i];
    }

    /** The FETCH_OK arrives: what was held back is recorded below its end. */
    method SetUpstreamEnd(end: Location)
      requires Valid() && upstreamEnd.None?
      modifies this`upstreamEnd, this`pendingGaps, this`handed
      ensures Valid() && upstreamEnd == Some(end) && old(handed) <= handed
    {
      hide InSomeInterval, Split, Bounded, Marks, Behind;
      var held := pendingGaps;
      InNone();
      upstreamEnd, pendingGaps := Some(end), [];
      for k := 0 to |held|
        invariant RangesOk(handed) && old(handed) <= handed
        invariant upstreamEnd == Some(end) && pendingGaps == []
        invariant forall p: Location ::
                    InSomeInterval(handed, p) <==> InSomeInterval(old(handed), p) || (InSomeInterval(held[..k], p) && Lt(p, end))
      {
        assert held[..k + 1] == held[..k] + [held[k]];
        InSomeAppend(held[..k], held[k]);
        HandBelow(held[k], end);
      }
      assert held[..|held|] == held;
      AccountedAfterOk(marked, old(handed), held, largestReceived, end, received, handed);
    }

    /** The cursor jumps to the target; what it passes over does not exist. That takes
        in the position it leaves, even if an object rests there. */
    method MarkNonExistentTo(target: Location)
      requires GapsOk() && Marks(range, marked, received, unknown, cut)
      requires Le(range.first, cursor) && Le(cursor, range.end) && Le(range.first, target) && Le(target, range.end)
      requires forall p: Location :: p in received && Le(cursor, p) && Lt(p, target) ==> p == cursor
      requires forall p: Location :: InSomeInterval(unknown, p) ==> Lt(p, cursor)
      modifies this`cursor, this`pendingGaps, this`handed, this`marked, this`cut
      ensures GapsOk() && Marks(range, marked, received, unknown, cut) && cursor == target && old(handed) <= handed
      ensures forall p: Location ::
                InSomeInterval(marked, p) <==> InSomeInterval(old(marked), p) || (Le(old(cursor), p) && Lt(p, target))
      ensures cut == old(cut) + if Lt(old(cursor), target) && old(cursor) in received then {old(cursor)} else {}
    {
      hide InSomeInterval, Marks, Accounted;
      if Lt(cursor, target) {
        var ranges := GetGapRanges(cursor, target, OldestFirst, range.first, range.end);
        GapRangesCoverExactly(cursor, target, OldestFirst, range.first, range.end);
        assert |ranges| == 1 && ranges == [ranges[0]];
        InSomeOne(ranges[0]);
        InSomeAppend(marked, ranges[0]);
        MarksAfterMark(range, marked, received, unknown, cut, ranges[0], cursor, target);
        InsertGap(ranges[0]);
        cut := cut + if cursor in received then {cursor} else {};
      }
      cursor := target;
    }

    /** An object or marker arrives, in order; one outside the range is refused. What is
        between the previous event and it does not exist. If it is stored whole, the
        cursor moves on to `landing`, past it and past gaps already known. Otherwise
        the cursor rests on it, and an object it rested on before is cut off. */
    method ObjectArrived(loc: Location, complete: bool, stored: bool, landing: Location) returns (inRange: bool)
      requires Valid() && !closed && (last.Some? ==> Lt(last.value, loc))
      requires InSpan(range, loc) ==> Lt(loc, landing) && Le(landing, range.end)
      modifies this
      ensures Valid() && upstreamEnd == old(upstreamEnd) && unknown == old(unknown) && !closed
      ensures inRange <==> InSpan(range, loc)
      ensures !inRange ==> unchanged(this)
      ensures inRange ==> received == old(received) + {loc} && last == Some(loc)
      ensures inRange ==> cut == old(cut) + if old(busy) then {old(cursor)} else {}
      ensures inRange ==> forall p: Location ::
                InSomeInterval(marked, p) <==> InSomeInterval(old(marked), p) || (Le(old(cursor), p) && Lt(p, loc))
      ensures inRange ==> busy == !(stored && complete) && cursor == if stored && complete then landing else loc
    {
      hide InSomeInterval, GapsOk, Marks, Behind, IsLargest;
      inRange := InSpan(range, loc);
      if !inRange {
        return;
      }
      TakeObject(loc);
      if stored && complete {
        ObjectCompleted(landing);
      }
    }

    /** The cursor comes to rest on the object. */
    method TakeObject(loc: Location)
      requires Valid() && !closed && InSpan(range, loc)
      requires last.Some? ==> Lt(last.value, loc)
      modifies this
      ensures Valid() && upstreamEnd == old(upstreamEnd) && old(handed) <= handed
      ensures received == old(received) + {loc} && unknown == old(unknown)
      ensures cut == old(cut) + if old(busy) then {old(cursor)} else {}
      ensures forall p: Location ::
                InSomeInterval(marked, p) <==> InSomeInterval(old(marked), p) || (Le(old(cursor), p) && Lt(p, loc))
      ensures last == Some(loc) && busy && !closed && cursor == loc
    {
      hide InSomeInterval, Accounted, Marks, Behind, IsLargest;
      AllBehind(range, marked, received, unknown, last, busy, cursor);
      LargestAfterReceive(largestReceived, received, loc);
      AccountedAfterReceive(marked, handed, pendingGaps, largestReceived, upstreamEnd, received, loc);
      MarksAfterReceive(range, marked, received, unknown, cut, loc);
      if largestReceived.None? || Lt(largestReceived.value, loc) {
        largestReceived := Some(loc);
      }
      received := received + {loc};
      MarkNonExistentTo(loc);
      BehindAfterTake(range, old(marked), old(received), unknown, last, busy, old(cursor), loc, marked);
      last, busy := Some(loc), true;
    }

    /** The rest of the object's bytes have come, or the response ended with them. */
    method ObjectCompleted(landing: Location)
      requires Valid() && !closed && busy && Lt(cursor, landing) && Le(landing, range.end)
      modifies this`cursor, this`busy
      ensures Valid() && cursor == landing && !busy
    {
      hide InSomeInterval, Accounted, Marks;
      cursor, busy := landing, false;
    }

    /** Upstream does not know about what follows the previous event up to the target.
        The cursor passes it over, or comes back to it from beyond known gaps; nothing
        is marked. Past the range nothing can follow. */
    method EndOfUnknownRange(target: Location, landing: Location)
      requires Valid() && !closed && Le(range.first, target) && (last.Some? ==> Lt(last.value, target))
      requires Lt(target, range.end) ==> Lt(target, landing) && Le(landing, range.end)
      modifies this`cursor, this`unknown, this`last, this`closed, this`busy
      ensures Valid()
      ensures var first := if old(last).Some? then Next(old(last).value).value else range.first;
              unknown == old(unknown) + [Interval(first, target)]
      ensures cursor == (if Lt(target, range.end) then landing else target) && closed == !Lt(target, range.end)
      ensures !busy && last == Some(target)
    {
      hide InSomeInterval, Accounted, Marks, Behind;
      ghost var declared := Interval(if last.Some? then Next(last.value).value else range.first, target);
      AllBehind(range, marked, received, unknown, last, busy, cursor);
      MarksAfterDeclare(range, marked, received, unknown, cut, declared);
      if Lt(target, range.end) {
        BehindAfterDeclare(range, marked, received, unknown, last, busy, cursor, declared, landing);
        cursor := landing;
      } else {
        cursor, closed := target, true;
      }
      unknown := unknown + [declared];
      last, busy := Some(target), false;
    }

    /** The response ends. What is left of the range does not exist, unless the track is
        known to have ended before the cursor. Nothing happens after the end. */
    method FinishRange(pastEndOfTrack: bool)
      requires Valid()
      modifies this`cursor, this`pendingGaps, this`handed, this`marked, this`cut, this`closed
      ensures Valid() && closed && old(handed) <= handed && cursor == range.end
      ensures old(closed) ==> marked == old(marked) && cut == old(cut) && handed == old(handed)
      ensures !old(closed) ==> forall p: Location ::
                InSomeInterval(marked, p) <==>
                InSomeInterval(old(marked), p) || (!pastEndOfTrack && Le(old(cursor), p) && Lt(p, range.end))
      ensures !old(closed) ==> cut == old(cut) + if !pastEndOfTrack && busy then {old(cursor)} else {}
    {
      hide InSomeInterval, Accounted, Marks, Behind;
      if closed {
        cursor := range.end;
        return;
      }
      AllBehind(range, marked, received, unknown, last, busy, cursor);
      MarkNonExistentTo(if pastEndOfTrack then cursor else range.end);
      closed := true;
      cursor := range.end;
    }

    /** The response breaks off: what is left of the range stays open. */
    method Reset()
      requires Valid()
      modifies this`closed, this`cursor
      ensures Valid() && closed && cursor == range.end
    {
      hide InSomeInterval, Accounted, Marks, Behind;
      closed := true;
      cursor := range.end;
    }
  }

  /** A response that stops inside its first object and then ends is taken to say that
      the object does not exist. */
  method CutOffByTheEnd(range: Span, loc: Location) returns (w: FetchWriteback)
    requires InSpan(range, loc)
    ensures w.Valid() && loc in w.received && InSomeInterval(w.handed, loc)
  {
    hide InSomeInterval, Marks, Behind;
    w := new FetchWriteback(range.first, range.end, range.first);
    var _ := w.ObjectArrived(loc, false, true, range.end);
    w.FinishRange(false);
    w.SetUpstreamEnd(range.end);
  }
}
