/** The two range splitters of the cache: how a run of misses becomes upstream
    requests, and how a cursor jump becomes gap records. Both serve two group
    orders. Groups ascend in one and descend in the other; objects inside a
    group always ascend. */
module RangeAlgebra {
  import opened Locations
  import opened IntervalSets

  datatype GroupOrder = OldestFirst | NewestFirst

  /** A request for [first, end): the end is exclusive. */
  datatype Span = Span(first: Location, end: Location)

  predicate InSpan(s: Span, p: Location) {
    Le(s.first, p) && Lt(p, s.end)
  }

  /** a is visited before b. */
  predicate Precedes(order: GroupOrder, a: Location, b: Location) {
    match order
    case OldestFirst => Lt(a, b)
    case NewestFirst => a.group > b.group || (a.group == b.group && a.obj < b.obj)
  }

  /** Iteration over the range passes p after reaching `from` (inclusive) and
      before reaching `to` (exclusive). */
  predicate Passed(order: GroupOrder, range: Span, from: Location, to: Location, p: Location) {
    InSpan(range, p) && !Precedes(order, p, from) && Precedes(order, p, to)
  }

  function OrElse(a: Option<Location>, b: Location): Location {
    if a.Some? then a.value else b
  }

  /** Splits the miss run that ended at `hit` into upstream requests. */
  function GetFetchIntervals(
    start: Location, end: Location, miss: Location, hit: Location, order: GroupOrder, isTail: bool
  ): seq<Span>
    requires order.NewestFirst? ==> miss.group >= hit.group
  {
    if order.OldestFirst? then
      [Span(miss, if isTail then end else hit)]
    else if miss.group == hit.group then
      [Span(miss, if isTail then OrElse(NextGroup(miss), end) else hit)]
    else
      var top := if miss.group == end.group then end else OrElse(NextGroup(miss), end);
      var between := miss.group - hit.group - 1;
      var upper :=
        if between == 0 then [Span(miss, top)]
        else if miss.obj == 0 then
          [Span(Max(start, GroupStart(miss.group - between)), top)]
        else
          var low := Position(hit.group + 1, if start.group == hit.group + 1 then start.obj else 0);
          [Span(miss, top), Span(low, GroupStart(miss.group))];
      var lowStart := if start.group == hit.group then start else GroupStart(hit.group);
      if hit.obj != 0 && Lt(lowStart, hit) then upper + [Span(lowStart, hit)] else upper
  }

  predicate InSomeSpan(spans: seq<Span>, p: Location) {
    exists i :: 0 <= i < |spans| && InSpan(spans[i], p)
  }

  /** Every position of an earlier span is visited before every position of a
      later one; in particular no two spans overlap. */
  ghost predicate InVisitOrder(order: GroupOrder, spans: seq<Span>) {
    forall i, j, p: Location, q: Location ::
      0 <= i < j < |spans| && InSpan(spans[i], p) && InSpan(spans[j], q) ==> Precedes(order, p, q)
  }

  ghost predicate Separate(spans: seq<Span>) {
    && (forall i :: 0 <= i < |spans| ==> Lt(spans[i].first, spans[i].end))
    && (forall i, j :: 0 <= i < |spans| && 0 <= j < |spans| ==> spans[i].end != spans[j].first)
  }

  /** A boundary flush asks upstream for exactly the positions iteration passes
      from the first miss to the boundary, and serving the requests one after
      another keeps the requested order. */
  lemma FetchIntervalsCoverExactly(start: Location, end: Location, miss: Location, hit: Location, order: GroupOrder)
    requires InSpan(Span(start, end), miss) && InSpan(Span(start, end), hit)
    requires Precedes(order, miss, hit)
    ensures forall p: Location ::
              InSomeSpan(GetFetchIntervals(start, end, miss, hit, order, false), p) <==>
              Passed(order, Span(start, end), miss, hit, p)
    ensures InVisitOrder(order, GetFetchIntervals(start, end, miss, hit, order, false))
  {
    var spans := GetFetchIntervals(start, end, miss, hit, order, false);
    forall p: Location
      ensures InSomeSpan(spans, p) <==> Passed(order, Span(start, end), miss, hit, p)
    {
      assert |spans| <= 3;
      if Passed(order, Span(start, end), miss, hit, p) {
        assert InSpan(spans[0], p) || (|spans| > 1 && InSpan(spans[1], p)) || (|spans| > 2 && InSpan(spans[2], p));
      }
    }
  }

  /** No request is empty, and no two could be one. */
  lemma FetchIntervalsAreSeparate(start: Location, end: Location, miss: Location, hit: Location, order: GroupOrder)
    requires InSpan(Span(start, end), miss) && InSpan(Span(start, end), hit) && Precedes(order, miss, hit)
    ensures Separate(GetFetchIntervals(start, end, miss, hit, order, false))
  {
  }

  /** Closed gap ranges for a cursor that jumps from start to end. */
  function GetGapRanges(
    start: Location, end: Location, order: GroupOrder, fetchStart: Location, fetchEnd: Location
  ): seq<Interval>
    requires order.NewestFirst? ==> InSpan(Span(fetchStart, fetchEnd), start)
  {
    if !Precedes(order, start, end) then []
    else if start.group == end.group then [Interval(start, PrevInGroup(end).value)]
    else if order.OldestFirst? then [Interval(start, Prev(end).value)]
    else
      var top := if start.group == fetchEnd.group then PrevInGroup(fetchEnd).value else GroupEnd(start.group);
      var low := NextGroup(end).value;
      var high := PrevGroupEnd(start).value;
      var middle := if high.group >= low.group then [Interval(low, high)] else [];
      var endStart := if end.group == fetchStart.group then fetchStart else GroupStart(end.group);
      [Interval(start, top)] + middle
      + (if Lt(endStart, end) then [Interval(endStart, PrevInGroup(end).value)] else [])
  }

  predicate Disjoint(ranges: seq<Interval>) {
    forall i, j :: 0 <= i < j < |ranges| ==> Lt(ranges[i].last, ranges[j].first) || Lt(ranges[j].last, ranges[i].first)
  }

  /** A cursor move records exactly the positions it passed over: all of them,
      none twice, and none outside the fetch. An oldest-first move may also end
      at the exclusive end of the fetch. */
  lemma GapRangesCoverExactly(
    start: Location, end: Location, order: GroupOrder, fetchStart: Location, fetchEnd: Location
  )
    requires Le(fetchStart, start) && Le(fetchStart, end)
    requires order.OldestFirst? ==> Le(start, fetchEnd) && Le(end, fetchEnd)
    requires order.NewestFirst? ==> Lt(start, fetchEnd) && Lt(end, fetchEnd)
    ensures forall p: Location ::
              InSomeInterval(GetGapRanges(start, end, order, fetchStart, fetchEnd), p) <==>
              Passed(order, Span(fetchStart, fetchEnd), start, end, p)
    ensures Disjoint(GetGapRanges(start, end, order, fetchStart, fetchEnd))
    ensures forall i :: 0 <= i < |GetGapRanges(start, end, order, fetchStart, fetchEnd)| ==>
              Le(GetGapRanges(start, end, order, fetchStart, fetchEnd)[i].first,
                 GetGapRanges(start, end, order, fetchStart, fetchEnd)[i].last)
  {
    var ranges := GetGapRanges(start, end, order, fetchStart, fetchEnd);
    forall p: Location
      ensures InSomeInterval(ranges, p) <==> Passed(order, Span(fetchStart, fetchEnd), start, end, p)
    {
      assert |ranges| <= 3;
      if Passed(order, Span(fetchStart, fetchEnd), start, end, p) {
        assert Within(ranges[0], p) || (|ranges| > 1 && Within(ranges[1], p)) || (|ranges| > 2 && Within(ranges[2], p));
      }
    }
  }
}
