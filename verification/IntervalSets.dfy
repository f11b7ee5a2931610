/** The LocationIntervalSet that the cache's gaps and index are kept in: a set
    of locations held as its maximal closed intervals in ascending order. The
    class belongs to a library outside the repository; what is modelled here is
    the interface MoqxCache uses. */
module IntervalSets {
  import opened Locations

  /** Closed at both ends. */
  datatype Interval = Interval(first: Location, last: Location)

  type IntervalSet = seq<Interval>

  predicate Within(i: Interval, p: Location) {
    Le(i.first, p) && Le(p, i.last)
  }

  /** Ranges in no particular order, not a canonical set. */
  predicate InSomeInterval(ranges: seq<Interval>, p: Location) {
    exists i :: 0 <= i < |ranges| && Within(ranges[i], p)
  }

  predicate RangesOk(ranges: seq<Interval>) {
    forall i :: 0 <= i < |ranges| ==> Le(ranges[i].first, ranges[i].last)
  }

  /** a is below b and some location lies strictly between them. */
  predicate Apart(a: Location, b: Location) {
    Next(a).Some? && Lt(Next(a).value, b)
  }

  /** Intervals are non-empty, ascending and never touch, so each is maximal. */
  predicate Canonical(s: IntervalSet) {
    s != [] ==>
      && Le(s[0].first, s[0].last)
      && (|s| > 1 ==> Apart(s[0].last, s[1].first))
      && Canonical(s[1..])
  }

  predicate Contains(s: IntervalSet, p: Location) {
    s != [] && (Within(s[0], p) || Contains(s[1..], p))
  }

  /** Nothing in s is at or below a, or touches it. */
  predicate Above(s: IntervalSet, a: Location) {
    s != [] ==> Apart(a, s[0].first)
  }

  lemma {:induction false} AboveExcludes(s: IntervalSet, a: Location, p: Location)
    requires Canonical(s) && Above(s, a) && Contains(s, p)
    ensures Apart(a, p)
  {
    if !Within(s[0], p) {
      AboveExcludes(s[1..], s[0].last, p);
    }
  }

  lemma {:induction false} FirstIsLowest(s: IntervalSet, p: Location)
    requires Canonical(s) && Contains(s, p)
    ensures Le(s[0].first, p)
  {
    if !Within(s[0], p) {
      AboveExcludes(s[1..], s[0].last, p);
    }
  }

  /** Intervals that overlap or touch the new range are merged into it. */
  function Insert(s: IntervalSet, first: Location, last: Location): (r: IntervalSet)
    requires Canonical(s) && Le(first, last)
    ensures Canonical(r) && r != []
    ensures r[0].first == (if s != [] && Lt(s[0].first, first) then s[0].first else first)
  {
    if s == [] then [Interval(first, last)]
    else if Apart(s[0].last, first) then [s[0]] + Insert(s[1..], first, last)
    else if Apart(last, s[0].first) then [Interval(first, last)] + s
    else Insert(s[1..], Min(first, s[0].first), Max(last, s[0].last))
  }

  lemma {:induction false} InsertAt(s: IntervalSet, first: Location, last: Location, p: Location)
    requires Canonical(s) && Le(first, last)
    ensures Contains(Insert(s, first, last), p) <==> Contains(s, p) || Within(Interval(first, last), p)
    decreases |s|
  {
    if s == [] {
    } else if Apart(s[0].last, first) {
      InsertAt(s[1..], first, last, p);
    } else if Apart(last, s[0].first) {
    } else {
      InsertAt(s[1..], Min(first, s[0].first), Max(last, s[0].last), p);
    }
  }

  /** Inserting adds exactly the new range. */
  lemma InsertMeaning(s: IntervalSet, first: Location, last: Location)
    requires Canonical(s) && Le(first, last)
    ensures forall p: Location :: Contains(Insert(s, first, last), p) <==> Contains(s, p) || Within(Interval(first, last), p)
  {
    forall p: Location
      ensures Contains(Insert(s, first, last), p) <==> Contains(s, p) || Within(Interval(first, last), p)
    {
      InsertAt(s, first, last, p);
    }
  }

  /** What a range leaves of one interval: a part below it, a part above it. */
  function Leftover(i: Interval, first: Location, last: Location): (r: IntervalSet)
    requires Le(i.first, i.last) && Le(first, last)
    ensures Canonical(r)
    ensures forall k :: 0 <= k < |r| ==> Le(i.first, r[k].first) && Le(r[k].last, i.last)
  {
    (if Lt(i.first, first) then [Interval(i.first, Min(i.last, Prev(first).value))] else [])
    + (if Lt(last, i.last) then [Interval(Max(i.first, Next(last).value), i.last)] else [])
  }

  lemma LeftoverAt(i: Interval, first: Location, last: Location, p: Location)
    requires Le(i.first, i.last) && Le(first, last)
    ensures Contains(Leftover(i, first, last), p) <==> Within(i, p) && !Within(Interval(first, last), p)
  {
    var below := if Lt(i.first, first) then [Interval(i.first, Min(i.last, Prev(first).value))] else [];
    var above := if Lt(last, i.last) then [Interval(Max(i.first, Next(last).value), i.last)] else [];
    assert Leftover(i, first, last) == below + above;
    JoinAt(below, above, p);
  }

  lemma {:induction false} JoinCanonical(a: IntervalSet, b: IntervalSet, limit: Location)
    requires Canonical(a) && Canonical(b) && Above(b, limit)
    requires forall k :: 0 <= k < |a| ==> Le(a[k].last, limit)
    ensures Canonical(a + b)
  {
    if a == [] {
      assert a + b == b;
    } else {
      assert (a + b)[1..] == a[1..] + b;
      JoinCanonical(a[1..], b, limit);
    }
  }

  lemma {:induction false} JoinAt(a: IntervalSet, b: IntervalSet, p: Location)
    ensures Contains(a + b, p) <==> Contains(a, p) || Contains(b, p)
  {
    if a == [] {
      assert a + b == b;
    } else {
      assert (a + b)[1..] == a[1..] + b;
      JoinAt(a[1..], b, p);
    }
  }

  /** Removing from inside an interval splits it in two. */
  function Remove(s: IntervalSet, first: Location, last: Location): (r: IntervalSet)
    requires Canonical(s) && Le(first, last)
    ensures Canonical(r)
    ensures r != [] ==> s != [] && Le(s[0].first, r[0].first)
  {
    if s == [] then []
    else
      var rest := Remove(s[1..], first, last);
      JoinCanonical(Leftover(s[0], first, last), rest, s[0].last);
      Leftover(s[0], first, last) + rest
  }

  lemma {:induction false} RemoveAt(s: IntervalSet, first: Location, last: Location, p: Location)
    requires Canonical(s) && Le(first, last)
    ensures Contains(Remove(s, first, last), p) <==> Contains(s, p) && !Within(Interval(first, last), p)
  {
    if s != [] {
      RemoveAt(s[1..], first, last, p);
      LeftoverAt(s[0], first, last, p);
      JoinAt(Leftover(s[0], first, last), Remove(s[1..], first, last), p);
    }
  }

  /** Removing takes out exactly the range. */
  lemma RemoveMeaning(s: IntervalSet, first: Location, last: Location)
    requires Canonical(s) && Le(first, last)
    ensures forall p: Location :: Contains(Remove(s, first, last), p) <==> Contains(s, p) && !Within(Interval(first, last), p)
  {
    forall p: Location
      ensures Contains(Remove(s, first, last), p) <==> Contains(s, p) && !Within(Interval(first, last), p)
    {
      RemoveAt(s, first, last, p);
    }
  }

  /** The maximal interval around p. */
  function FindInterval(s: IntervalSet, p: Location): (r: Option<Interval>)
    requires Canonical(s)
    ensures r.Some? <==> Contains(s, p)
    ensures r.Some? ==> Within(r.value, p)
  {
    if s == [] then None
    else if Within(s[0], p) then Some(s[0])
    else FindInterval(s[1..], p)
  }

  /** It lies in the set, and the set does not go on right behind it. */
  lemma {:induction false} FoundIsMaximal(s: IntervalSet, p: Location)
    requires Canonical(s) && Contains(s, p)
    ensures var i := FindInterval(s, p).value;
            && (forall q: Location :: Within(i, q) ==> Contains(s, q))
            && (Next(i.last).Some? ==> !Contains(s, Next(i.last).value))
            && Le(s[0].first, i.first) && Le(i.first, i.last)
  {
    var i := FindInterval(s, p).value;
    if Within(s[0], p) {
      if Next(i.last).Some? && Contains(s[1..], Next(i.last).value) {
        AboveExcludes(s[1..], i.last, Next(i.last).value);
      }
    } else {
      FoundIsMaximal(s[1..], p);
      AboveExcludes(s[1..], s[0].last, i.last);
    }
  }

  /** The lowest interval that starts above p. */
  function FindNextInterval(s: IntervalSet, p: Location): (r: Option<Interval>)
    requires Canonical(s)
    ensures r.Some? ==> Lt(p, r.value.first) && Contains(s, r.value.first)
  {
    if s == [] then None
    else if Lt(p, s[0].first) then Some(s[0])
    else FindNextInterval(s[1..], p)
  }

  /** From a location outside the set, nothing of the set is skipped. */
  lemma {:induction false} NextIsNearest(s: IntervalSet, p: Location, q: Location)
    requires Canonical(s) && !Contains(s, p) && Contains(s, q) && Lt(p, q)
    ensures FindNextInterval(s, p).Some? && Le(FindNextInterval(s, p).value.first, q)
  {
    if Lt(p, s[0].first) {
      FirstIsLowest(s, q);
    } else {
      NextIsNearest(s[1..], p, q);
    }
  }
}
