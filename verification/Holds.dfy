/** What keeps a cached group from being evicted. Pin counts, the per-track and
    global group LRUs, open writebacks and in-progress fetch entries live on
    the groups, tracks and writebacks of the cache; they are gathered here
    because one invariant ties them together. */
module GroupHolds {
  import opened Locations
  import opened TrackModel
  import opened CacheTracks

  type GroupKey = (TrackName, Id)

  /** Identifies one writeback. */
  type Handle = nat

  /** What one in-progress fetch covers, and how far it has got. */
  datatype FetchEntry = FetchEntry(track: TrackName, key: Location, end: Location, progress: Location)

  /** `pins` has the group each open subgroup writeback, and each in-progress
      fetch entry, is writing. A writeback outlives the eviction of its track and
      then finds the track's evicted flag set: its handle is gone from `pins`.
      `since` is history, which nothing reads: when each group was last created or
      released, by a clock that ticks with every such event. */
  datatype Holds = Holds(
    pinCount: map<GroupKey, nat>,
    groupLRU: map<TrackName, seq<Id>>,
    globalLRU: seq<GroupKey>,
    pins: map<Handle, GroupKey>,
    fetches: map<Handle, FetchEntry>,
    since: map<GroupKey, nat>,
    clock: nat)

  const NO_HOLDS := Holds(map[], map[], [], map[], map[], map[], 0)

  // --- Lists -------------------------------------------------------------------

  ghost predicate NoRepeats<T>(s: seq<T>) {
    forall i, j :: 0 <= i < j < |s| ==> s[i] != s[j]
  }

  /** std::list::erase of the node holding x. */
  function Without<T(==,!new)>(s: seq<T>, x: T): (r: seq<T>)
    ensures forall y :: y in r <==> y in s && y != x
    ensures x !in s ==> r == s
  {
    if s == [] then []
    else if s[0] == x then Without(s[1..], x)
    else [s[0]] + Without(s[1..], x)
  }

  lemma {:induction false} WithoutKeepsNoRepeats<T(!new)>(s: seq<T>, x: T)
    requires NoRepeats(s)
    ensures NoRepeats(Without(s, x))
    ensures x in s ==> |Without(s, x)| == |s| - 1
  {
    if s != [] {
      WithoutKeepsNoRepeats(s[1..], x);
      if s[0] != x {
        assert s[0] !in s[1..];
        assert x in s ==> x in s[1..];
      } else {
        assert x !in s[1..];
      }
    }
  }

  /** The entries of other tracks. */
  function Elsewhere(s: seq<GroupKey>, n: TrackName): (r: seq<GroupKey>)
    ensures forall k: GroupKey :: k in r <==> k in s && k.0 != n
  {
    if s == [] then []
    else if s[0].0 == n then Elsewhere(s[1..], n)
    else [s[0]] + Elsewhere(s[1..], n)
  }

  lemma {:induction false} ElsewhereKeepsNoRepeats(s: seq<GroupKey>, n: TrackName)
    requires NoRepeats(s)
    ensures NoRepeats(Elsewhere(s, n))
  {
    if s != [] {
      ElsewhereKeepsNoRepeats(s[1..], n);
      assert s[0] !in s[1..];
    }
  }

  // --- Age ---------------------------------------------------------------------

  function SinceIn<T>(since: map<T, nat>, k: T): nat {
    if k in since then since[k] else 0
  }

  /** Newest first, and all before the given time. */
  ghost predicate NewestFirst<T>(lru: seq<T>, since: map<T, nat>, before: nat) {
    lru == [] || (SinceIn(since, lru[0]) < before && NewestFirst(lru[1..], since, SinceIn(since, lru[0])))
  }

  /** What is listed earlier is newer. */
  lemma {:induction false} ListedEarlierIsNewer<T>(lru: seq<T>, since: map<T, nat>, before: nat, i: nat, j: nat)
    requires NewestFirst(lru, since, before) && i <= j < |lru|
    ensures SinceIn(since, lru[i]) < before && (i < j ==> SinceIn(since, lru[j]) < SinceIn(since, lru[i]))
  {
    if i > 0 {
      ListedEarlierIsNewer(lru[1..], since, SinceIn(since, lru[0]), i - 1, j - 1);
    } else if j > 0 {
      ListedEarlierIsNewer(lru[1..], since, SinceIn(since, lru[0]), j - 1, j - 1);
    }
  }

  function KeysOf(n: TrackName, lru: seq<Id>): (r: seq<GroupKey>)
    ensures |r| == |lru| && forall i :: 0 <= i < |lru| ==> r[i] == (n, lru[i])
  {
    if lru == [] then [] else [(n, lru[0])] + KeysOf(n, lru[1..])
  }

  /** Both kinds of LRU list the groups by when they were last created or released. */
  ghost predicate AgesOk(
    globalLRU: seq<GroupKey>, groupLRU: map<TrackName, seq<Id>>, since: map<GroupKey, nat>, clock: nat)
  {
    && NewestFirst(globalLRU, since, clock)
    && (forall n :: n in groupLRU ==> NewestFirst(KeysOf(n, groupLRU[n]), since, clock))
  }

  lemma {:induction false} NewestFirstLater<T>(lru: seq<T>, since: map<T, nat>, before: nat, later: nat)
    requires NewestFirst(lru, since, before) && before <= later
    ensures NewestFirst(lru, since, later)
  {
  }

  lemma {:induction false} WithoutKeepsNewestFirst<T(!new)>(lru: seq<T>, k: T, since: map<T, nat>, before: nat)
    requires NewestFirst(lru, since, before)
    ensures NewestFirst(Without(lru, k), since, before)
  {
    if lru != [] {
      WithoutKeepsNewestFirst(lru[1..], k, since, SinceIn(since, lru[0]));
      NewestFirstLater(Without(lru[1..], k), since, SinceIn(since, lru[0]), before);
    }
  }

  lemma {:induction false} ElsewhereKeepsNewestFirst(lru: seq<GroupKey>, n: TrackName, since: map<GroupKey, nat>, before: nat)
    requires NewestFirst(lru, since, before)
    ensures NewestFirst(Elsewhere(lru, n), since, before)
  {
    if lru != [] {
      ElsewhereKeepsNewestFirst(lru[1..], n, since, SinceIn(since, lru[0]));
      NewestFirstLater(Elsewhere(lru[1..], n), since, SinceIn(since, lru[0]), before);
    }
  }

  lemma {:induction false} KeysWithout(n: TrackName, lru: seq<Id>, g: Id)
    ensures KeysOf(n, Without(lru, g)) == Without(KeysOf(n, lru), (n, g))
  {
    if lru != [] {
      KeysWithout(n, lru[1..], g);
      assert KeysOf(n, lru)[1..] == KeysOf(n, lru[1..]);
      assert ([lru[0]] + Without(lru[1..], g))[1..] == Without(lru[1..], g);
    }
  }

  lemma AgesWithout(d: Holds, k: GroupKey)
    requires AgesOk(d.globalLRU, d.groupLRU, d.since, d.clock) && k.0 in d.groupLRU
    ensures AgesOk(Without(d.globalLRU, k), d.groupLRU[k.0 := Without(d.groupLRU[k.0], k.1)], d.since, d.clock)
  {
    WithoutKeepsNewestFirst(d.globalLRU, k, d.since, d.clock);
    WithoutKeepsNewestFirst(KeysOf(k.0, d.groupLRU[k.0]), k, d.since, d.clock);
    KeysWithout(k.0, d.groupLRU[k.0], k.1);
  }

  lemma {:induction false} SameAges<T>(lru: seq<T>, k: T, since: map<T, nat>, before: nat, now: nat)
    requires NewestFirst(lru, since, before) && k !in lru
    ensures NewestFirst(lru, since[k := now], before)
  {
    if lru != [] {
      SameAges(lru[1..], k, since, SinceIn(since, lru[0]), now);
    }
  }

  lemma NewestInFront<T>(lru: seq<T>, k: T, since: map<T, nat>, clock: nat)
    requires NewestFirst(lru, since, clock) && k !in lru
    ensures NewestFirst([k] + lru, since[k := clock], clock + 1)
  {
    SameAges(lru, k, since, clock, clock);
    assert ([k] + lru)[1..] == lru;
  }

  lemma AgesInFront(d: Holds, k: GroupKey)
    requires AgesOk(d.globalLRU, d.groupLRU, d.since, d.clock)
    requires k.0 in d.groupLRU && k !in d.globalLRU && k.1 !in d.groupLRU[k.0]
    ensures AgesOk([k] + d.globalLRU, d.groupLRU[k.0 := [k.1] + d.groupLRU[k.0]], d.since[k := d.clock], d.clock + 1)
  {
    hide NewestFirst;
    NewestInFront(d.globalLRU, k, d.since, d.clock);
    forall n | n in d.groupLRU
      ensures NewestFirst(KeysOf(n, if n == k.0 then [k.1] + d.groupLRU[n] else d.groupLRU[n]), d.since[k := d.clock], d.clock + 1)
    {
      if n == k.0 {
        assert k !in KeysOf(n, d.groupLRU[n]);
        NewestInFront(KeysOf(n, d.groupLRU[n]), k, d.since, d.clock);
        assert ([k.1] + d.groupLRU[n])[1..] == d.groupLRU[n];
      } else {
        SameAges(KeysOf(n, d.groupLRU[n]), k, d.since, d.clock, d.clock);
        NewestFirstLater(KeysOf(n, d.groupLRU[n]), d.since[k := d.clock], d.clock, d.clock + 1);
      }
    }
  }

  // --- Holders -----------------------------------------------------------------

  /** The handles that hold v. */
  ghost function Holders<V>(m: map<Handle, V>, v: V): set<Handle> {
    set h | h in m && m[h] == v
  }

  lemma HoldersAfterAdd<V>(m: map<Handle, V>, h: Handle, v: V, w: V)
    requires h !in m
    ensures |Holders(m[h := v], w)| == |Holders(m, w)| + (if w == v then 1 else 0)
  {
    assert Holders(m[h := v], w) == Holders(m, w) + (if w == v then {h} else {});
  }

  lemma HoldersAfterRemove<V>(m: map<Handle, V>, h: Handle, w: V)
    requires h in m
    ensures |Holders(m - {h}, w)| == |Holders(m, w)| - (if w == m[h] then 1 else 0)
  {
    assert Holders(m, w) == Holders(m - {h}, w) + (if w == m[h] then {h} else {});
  }

  // --- The invariant -------------------------------------------------------------

  /** The pin count is the number of writebacks holding the group. */
  ghost predicate CountsOk(pinCount: map<GroupKey, nat>, pins: map<Handle, GroupKey>) {
    && (forall k: GroupKey :: k in pinCount ==> pinCount[k] == |Holders(pins, k)|)
    && (forall h :: h in pins ==> pins[h] in pinCount)
  }

  /** A group is in the global LRU, once, exactly when nothing pins it. */
  ghost predicate GlobalOk(pinCount: map<GroupKey, nat>, lru: seq<GroupKey>) {
    && NoRepeats(lru)
    && (forall k: GroupKey :: k in lru <==> k in pinCount && pinCount[k] == 0)
  }

  /** And likewise in its track's LRU. */
  ghost predicate PerTrackOk(pinCount: map<GroupKey, nat>, lrus: map<TrackName, seq<Id>>) {
    && (forall k: GroupKey :: k in pinCount ==> k.0 in lrus)
    && (forall n :: n in lrus ==> NoRepeats(lrus[n]))
    && (forall n, g: Id :: n in lrus ==> (g in lrus[n] <==> (n, g) in pinCount && pinCount[(n, g)] == 0))
  }

  /** Every in-progress fetch entry pins the group it is keyed in. */
  ghost predicate FetchesOk(fetches: map<Handle, FetchEntry>, pins: map<Handle, GroupKey>) {
    forall h :: h in fetches ==> h in pins && pins[h] == (fetches[h].track, fetches[h].key.group)
  }

  ghost predicate HoldsOk(d: Holds) {
    && CountsOk(d.pinCount, d.pins) && GlobalOk(d.pinCount, d.globalLRU)
    && PerTrackOk(d.pinCount, d.groupLRU) && FetchesOk(d.fetches, d.pins)
    && AgesOk(d.globalLRU, d.groupLRU, d.since, d.clock)
  }

  lemma ListedIfSpare(d: Holds, k: GroupKey)
    requires GlobalOk(d.pinCount, d.globalLRU) && PerTrackOk(d.pinCount, d.groupLRU)
    ensures k in d.pinCount ==> k.0 in d.groupLRU
    ensures k in d.globalLRU <==> k in d.pinCount && d.pinCount[k] == 0
    ensures k.0 in d.groupLRU ==> (k.1 in d.groupLRU[k.0] <==> k in d.globalLRU)
  {
  }

  /** A handle that still holds a group finds it cached and pinned. */
  lemma HeldIsPinned(d: Holds, h: Handle)
    requires HoldsOk(d) && h in d.pins
    ensures d.pins[h] in d.pinCount && d.pinCount[d.pins[h]] > 0
  {
    assert h in Holders(d.pins, d.pins[h]);
  }

  // --- Pin and unpin ---------------------------------------------------------------

  /** The first pin takes the group out of both LRUs. */
  function Pin(d: Holds, k: GroupKey, h: Handle): Holds
    requires k in d.pinCount && k.0 in d.groupLRU
  {
    var counted := d.(pinCount := d.pinCount[k := d.pinCount[k] + 1], pins := d.pins[h := k]);
    if d.pinCount[k] > 0 then counted
    else
      counted.(groupLRU := d.groupLRU[k.0 := Without(d.groupLRU[k.0], k.1)], globalLRU := Without(d.globalLRU, k))
  }

  lemma GlobalPinned(pinCount: map<GroupKey, nat>, lru: seq<GroupKey>, k: GroupKey)
    requires GlobalOk(pinCount, lru)
    ensures GlobalOk(pinCount[k := 1], Without(lru, k)) && GlobalOk(pinCount - {k}, Without(lru, k))
  {
    WithoutKeepsNoRepeats(lru, k);
  }

  lemma PerTrackPinned(pinCount: map<GroupKey, nat>, lrus: map<TrackName, seq<Id>>, k: GroupKey)
    requires PerTrackOk(pinCount, lrus) && k.0 in lrus
    ensures var after := lrus[k.0 := Without(lrus[k.0], k.1)];
            PerTrackOk(pinCount[k := 1], after) && PerTrackOk(pinCount - {k}, after)
  {
    WithoutKeepsNoRepeats(lrus[k.0], k.1);
  }

  lemma LrusStay(d: Holds, k: GroupKey, count: nat)
    requires GlobalOk(d.pinCount, d.globalLRU) && PerTrackOk(d.pinCount, d.groupLRU)
    requires k in d.pinCount && d.pinCount[k] > 0 && count > 0
    ensures GlobalOk(d.pinCount[k := count], d.globalLRU) && PerTrackOk(d.pinCount[k := count], d.groupLRU)
  {
  }

  lemma CountsAfterAdd(pinCount: map<GroupKey, nat>, pins: map<Handle, GroupKey>, k: GroupKey, h: Handle)
    requires CountsOk(pinCount, pins) && k in pinCount && h !in pins
    ensures CountsOk(pinCount[k := pinCount[k] + 1], pins[h := k])
  {
    forall j: GroupKey
      ensures |Holders(pins[h := k], j)| == |Holders(pins, j)| + (if j == k then 1 else 0)
    {
      HoldersAfterAdd(pins, h, k, j);
    }
  }

  lemma PinKeepsOk(d: Holds, k: GroupKey, h: Handle)
    requires HoldsOk(d) && k in d.pinCount && h !in d.pins
    ensures HoldsOk(Pin(d, k, h))
  {
    hide CountsOk, GlobalOk, PerTrackOk, AgesOk, Without;
    ListedIfSpare(d, k);
    if d.pinCount[k] > 0 {
      LrusStay(d, k, d.pinCount[k] + 1);
    } else {
      GlobalPinned(d.pinCount, d.globalLRU, k);
      PerTrackPinned(d.pinCount, d.groupLRU, k);
      AgesWithout(d, k);
    }
    CountsAfterAdd(d.pinCount, d.pins, k, h);
  }

  /** The last unpin puts the group back in front of both LRUs. */
  function Unpin(d: Holds, h: Handle): Holds
    requires h in d.pins && d.pins[h] in d.pinCount && d.pinCount[d.pins[h]] > 0 && d.pins[h].0 in d.groupLRU
  {
    var k := d.pins[h];
    var counted := d.(pinCount := d.pinCount[k := d.pinCount[k] - 1], pins := d.pins - {h}, fetches := d.fetches - {h});
    if d.pinCount[k] > 1 then counted
    else
      counted.(groupLRU := d.groupLRU[k.0 := [k.1] + d.groupLRU[k.0]], globalLRU := [k] + d.globalLRU,
               since := d.since[k := d.clock], clock := d.clock + 1)
  }

  lemma LrusInFront(d: Holds, k: GroupKey)
    requires GlobalOk(d.pinCount, d.globalLRU) && PerTrackOk(d.pinCount, d.groupLRU)
    requires k.0 in d.groupLRU && (k in d.pinCount ==> d.pinCount[k] > 0)
    ensures GlobalOk(d.pinCount[k := 0], [k] + d.globalLRU)
    ensures PerTrackOk(d.pinCount[k := 0], d.groupLRU[k.0 := [k.1] + d.groupLRU[k.0]])
  {
  }

  lemma CountsAfterRemove(pinCount: map<GroupKey, nat>, pins: map<Handle, GroupKey>, h: Handle)
    requires CountsOk(pinCount, pins) && h in pins && pins[h] in pinCount && pinCount[pins[h]] > 0
    ensures CountsOk(pinCount[pins[h] := pinCount[pins[h]] - 1], pins - {h})
  {
    forall j: GroupKey
      ensures |Holders(pins - {h}, j)| == |Holders(pins, j)| - (if j == pins[h] then 1 else 0)
    {
      HoldersAfterRemove(pins, h, j);
    }
  }

  lemma UnpinKeepsOk(d: Holds, h: Handle)
    requires HoldsOk(d) && h in d.pins && d.pins[h] in d.pinCount && d.pinCount[d.pins[h]] > 0
    ensures HoldsOk(Unpin(d, h))
  {
    hide CountsOk, GlobalOk, PerTrackOk, AgesOk;
    ListedIfSpare(d, d.pins[h]);
    AgesInFront(d, d.pins[h]);
    if d.pinCount[d.pins[h]] > 1 {
      LrusStay(d, d.pins[h], d.pinCount[d.pins[h]] - 1);
    } else {
      LrusInFront(d, d.pins[h]);
    }
    CountsAfterRemove(d.pinCount, d.pins, h);
  }

  // --- Groups and tracks come and go -------------------------------------------------

  /** A new group starts unpinned, in front of both LRUs. */
  function AddGroup(d: Holds, k: GroupKey): Holds
    requires k.0 in d.groupLRU
  {
    d.(pinCount := d.pinCount[k := 0], groupLRU := d.groupLRU[k.0 := [k.1] + d.groupLRU[k.0]], globalLRU := [k] + d.globalLRU,
       since := d.since[k := d.clock], clock := d.clock + 1)
  }

  lemma CountsAfterNew(pinCount: map<GroupKey, nat>, pins: map<Handle, GroupKey>, k: GroupKey)
    requires CountsOk(pinCount, pins) && k !in pinCount
    ensures CountsOk(pinCount[k := 0], pins)
  {
    assert Holders(pins, k) == {};
  }

  lemma AddGroupKeepsOk(d: Holds, k: GroupKey)
    requires HoldsOk(d) && k.0 in d.groupLRU && k !in d.pinCount
    ensures HoldsOk(AddGroup(d, k))
  {
    hide CountsOk, AgesOk, GlobalOk, PerTrackOk;
    CountsAfterNew(d.pinCount, d.pins, k);
    ListedIfSpare(d, k);
    AgesInFront(d, k);
    LrusInFront(d, k);
  }

  function RemoveGroup(d: Holds, k: GroupKey): Holds
    requires k.0 in d.groupLRU
  {
    d.(pinCount := d.pinCount - {k},
       groupLRU := d.groupLRU[k.0 := Without(d.groupLRU[k.0], k.1)],
       globalLRU := Without(d.globalLRU, k))
  }

  lemma RemoveGroupKeepsOk(d: Holds, k: GroupKey)
    requires HoldsOk(d) && k in d.pinCount && d.pinCount[k] == 0
    ensures HoldsOk(RemoveGroup(d, k))
  {
    hide AgesOk, GlobalOk, PerTrackOk, Without;
    ListedIfSpare(d, k);
    AgesWithout(d, k);
    forall h | h in d.pins
      ensures d.pins[h] != k
    {
      HeldIsPinned(d, h);
    }
    GlobalPinned(d.pinCount, d.globalLRU, k);
    PerTrackPinned(d.pinCount, d.groupLRU, k);
  }

  function AddTrack(d: Holds, n: TrackName): Holds {
    d.(groupLRU := d.groupLRU[n := []])
  }

  lemma AddTrackKeepsOk(d: Holds, n: TrackName)
    requires HoldsOk(d) && n !in d.groupLRU
    ensures HoldsOk(AddTrack(d, n))
  {
    hide CountsOk, GlobalOk;
  }

  /** A whole track goes, whatever pins its groups: its writebacks are cut off. */
  function RemoveTrack(d: Holds, n: TrackName): Holds {
    Holds(CountsElsewhere(d.pinCount, n), d.groupLRU - {n}, Elsewhere(d.globalLRU, n),
          PinsElsewhere(d.pins, n), FetchesElsewhere(d.fetches, n), d.since, d.clock)
  }

  function CountsElsewhere(pinCount: map<GroupKey, nat>, n: TrackName): map<GroupKey, nat> {
    map k | k in pinCount && k.0 != n :: pinCount[k]
  }

  function PinsElsewhere(pins: map<Handle, GroupKey>, n: TrackName): map<Handle, GroupKey> {
    map h | h in pins && pins[h].0 != n :: pins[h]
  }

  function FetchesElsewhere(fetches: map<Handle, FetchEntry>, n: TrackName): map<Handle, FetchEntry> {
    map h | h in fetches && fetches[h].track != n :: fetches[h]
  }

  lemma CountsOkElsewhere(pinCount: map<GroupKey, nat>, pins: map<Handle, GroupKey>, n: TrackName)
    requires CountsOk(pinCount, pins)
    ensures CountsOk(CountsElsewhere(pinCount, n), PinsElsewhere(pins, n))
  {
    forall k: GroupKey | k.0 != n
      ensures Holders(PinsElsewhere(pins, n), k) == Holders(pins, k)
    {
    }
  }

  lemma LrusOkElsewhere(d: Holds, n: TrackName)
    requires GlobalOk(d.pinCount, d.globalLRU) && PerTrackOk(d.pinCount, d.groupLRU)
    ensures GlobalOk(CountsElsewhere(d.pinCount, n), Elsewhere(d.globalLRU, n))
    ensures PerTrackOk(CountsElsewhere(d.pinCount, n), d.groupLRU - {n})
  {
    ElsewhereKeepsNoRepeats(d.globalLRU, n);
  }

  lemma RemoveTrackKeepsOk(d: Holds, n: TrackName)
    requires HoldsOk(d)
    ensures HoldsOk(RemoveTrack(d, n))
  {
    hide CountsOk, GlobalOk, PerTrackOk, CountsElsewhere;
    CountsOkElsewhere(d.pinCount, d.pins, n);
    LrusOkElsewhere(d, n);
    ElsewhereKeepsNewestFirst(d.globalLRU, n, d.since, d.clock);
  }

  /** An in-progress fetch pins the group of its key. */
  function EnterFetch(d: Holds, h: Handle, entry: FetchEntry): Holds
    requires (entry.track, entry.key.group) in d.pinCount && entry.track in d.groupLRU
  {
    Pin(d, (entry.track, entry.key.group), h).(fetches := d.fetches[h := entry])
  }

  lemma EnterFetchKeepsOk(d: Holds, h: Handle, entry: FetchEntry)
    requires HoldsOk(d) && (entry.track, entry.key.group) in d.pinCount && h !in d.pins
    ensures HoldsOk(EnterFetch(d, h, entry))
  {
    hide CountsOk, GlobalOk, PerTrackOk, AgesOk;
    ListedIfSpare(d, (entry.track, entry.key.group));
    PinKeepsOk(d, (entry.track, entry.key.group), h);
  }
}
