/** Which groups and tracks eviction takes, and what it leaves. */
module Eviction {
  import opened TrackModel
  import opened CacheTracks
  import opened GroupHolds
  import opened CacheInvariant

  lemma {:induction false} WithoutConcat<T(!new)>(a: seq<T>, b: seq<T>, x: T)
    ensures Without(a + b, x) == Without(a, x) + Without(b, x)
  {
    if a == [] {
      assert a + b == b;
    } else {
      assert (a + b)[1..] == a[1..] + b;
      WithoutConcat(a[1..], b, x);
    }
  }

  /** Erasing the node at i closes the list over it. */
  lemma WithoutCuts<T(!new)>(s: seq<T>, i: nat)
    requires i < |s| && NoRepeats(s)
    ensures Without(s, s[i]) == s[..i] + s[i + 1..]
  {
    var x, rest := s[i], s[i..];
    assert s == s[..i] + rest && rest[0] == x && rest[1..] == s[i + 1..];
    WithoutConcat(s[..i], rest, x);
    assert x !in s[..i] && x !in s[i + 1..];
  }

  lemma {:induction false} ElsewhereOfNone(s: seq<GroupKey>, n: TrackName)
    requires forall k: GroupKey :: k in s ==> k.0 != n
    ensures Elsewhere(s, n) == s
  {
    if s != [] {
      assert s[0] in s;
      forall k: GroupKey | k in s[1..] ensures k.0 != n { assert k in s; }
      ElsewhereOfNone(s[1..], n);
    }
  }

  predicate JoinPoint(s: CacheState, k: GroupKey) {
    k.0 in s.tracks && s.tracks[k.0].IsJoinPoint(k.1)
  }

  /** b comes from a by evicting groups that nothing pinned and that were no join
      points, and then tracks that were left empty and unused. */
  ghost predicate OnlySpareEvicted(a: CacheState, b: CacheState) {
    && b.limits == a.limits && b.holds.pins == a.holds.pins && b.holds.fetches == a.holds.fetches && b.subs == a.subs
    && b.totalCachedBytes <= a.totalCachedBytes
    && (forall n :: n in b.tracks ==> n in a.tracks && SameMarks(a.tracks[n], b.tracks[n]))
    && (forall n :: n in a.tracks && n !in b.tracks ==> CanEvict(a.tracks, a.holds.fetches, n))
    && (forall k: GroupKey :: HasGroup(b.tracks, k) ==>
          HasGroup(a.tracks, k) && b.tracks[k.0].groups[k.1] == a.tracks[k.0].groups[k.1])
    && (forall k: GroupKey :: HasGroup(a.tracks, k) && (k !in a.holds.globalLRU || JoinPoint(a, k)) ==> HasGroup(b.tracks, k))
  }

  /** Eviction leaves what a track knows about its extent alone. */
  predicate SameMarks(a: TrackState, b: TrackState) {
    && b.liveWritebackCount == a.liveWritebackCount && b.endOfTrack == a.endOfTrack && b.largest == a.largest
    && b.maxCacheDuration == a.maxCacheDuration && b.lastWrite == a.lastWrite
  }

  lemma NothingEvicted(a: CacheState)
    ensures OnlySpareEvicted(a, a)
  {
  }

  lemma OneGroupEvicted(s: CacheState, k: GroupKey)
    requires Inv(s) && k in s.holds.globalLRU && !JoinPoint(s, k)
    requires k.0 in s.tracks && k.0 in s.holds.groupLRU && CanForget(s.tracks[k.0], k.1)
    ensures OnlySpareEvicted(s, EvictGroupStep(s, k.0, k.1))
  {
    hide ForgottenIndex, ContentsOk, HoldsOk, CachedBytes, SubsOk, TrackLruOk, Linked;
    var r := EvictGroupStep(s, k.0, k.1);
    forall j: GroupKey
      ensures HasGroup(r.tracks, j) <==> HasGroup(s.tracks, j) && j != k
    {
    }
  }

  lemma EvictionsCompose(a: CacheState, b: CacheState, c: CacheState)
    requires OnlySpareEvicted(a, b) && OnlySpareEvicted(b, c)
    requires forall k: GroupKey :: k in b.holds.globalLRU ==> k in a.holds.globalLRU
    ensures OnlySpareEvicted(a, c)
  {
    forall k: GroupKey | HasGroup(a.tracks, k) && (k !in a.holds.globalLRU || JoinPoint(a, k))
      ensures HasGroup(c.tracks, k)
    {
      assert HasGroup(b.tracks, k);
      assert JoinPoint(a, k) ==> JoinPoint(b, k);
    }
  }

  /** The empty shell of a track that nothing uses goes too. */
  function DropShell(s: CacheState, n: TrackName): CacheState {
    if n in s.tracks && s.tracks[n].groups == map[] && CanEvict(s.tracks, s.holds.fetches, n) then DropTrackStep(s, n, 0) else s
  }

  /** The track is not kept with nothing in it and nothing using it. */
  ghost predicate NoShell(s: CacheState, n: TrackName) {
    n in s.tracks && s.tracks[n].groups == map[] ==> !CanEvict(s.tracks, s.holds.fetches, n)
  }

  lemma NoHoldsElsewhere(d: Holds, n: TrackName)
    requires HoldsOk(d)
    requires forall k: GroupKey :: k in d.pinCount ==> k.0 != n
    requires forall h :: h in d.fetches ==> d.fetches[h].track != n
    ensures PinsElsewhere(d.pins, n) == d.pins
    ensures FetchesElsewhere(d.fetches, n) == d.fetches
    ensures Elsewhere(d.globalLRU, n) == d.globalLRU
  {
    hide AgesOk, PerTrackOk, FetchesOk, Elsewhere;
    assert forall h :: h in d.pins ==> d.pins[h] in d.pinCount;
    assert forall k: GroupKey :: k in d.globalLRU ==> k in d.pinCount;
    hide HoldsOk;
    ElsewhereOfNone(d.globalLRU, n);
  }

  lemma NoSubsElsewhere(tracks: Tracks, subs: Subs, n: TrackName)
    requires SubsOk(tracks, subs) && n in tracks && tracks[n].liveWritebackCount == 0
    ensures SubsElsewhere(subs, n) == subs
  {
    assert Holders(subs, n) == {};
    forall h | h in subs ensures subs[h] != n { assert h !in Holders(subs, n); }
  }

  lemma NoGroupsLinked(tracks: Tracks, holds: Holds, n: TrackName)
    requires Linked(tracks, holds) && n in tracks && tracks[n].groups == map[]
    ensures forall k: GroupKey :: k in holds.pinCount ==> k.0 != n
    ensures TrackBytes(tracks[n]) == 0
  {
    assert forall k: GroupKey :: k.0 == n ==> !HasGroup(tracks, k);
    assert GroupBytes(map[]) == map[];
  }

  lemma EmptyTrackDropped(a: CacheState, b: CacheState, n: TrackName)
    requires n in a.tracks && a.tracks[n].groups == map[] && CanEvict(a.tracks, a.holds.fetches, n)
    requires b.tracks == a.tracks - {n} && b.limits == a.limits && b.subs == a.subs
    requires b.holds.pins == a.holds.pins && b.holds.fetches == a.holds.fetches
    requires b.totalCachedBytes == a.totalCachedBytes
    ensures OnlySpareEvicted(a, b)
  {
    forall k: GroupKey
      ensures HasGroup(b.tracks, k) <==> HasGroup(a.tracks, k)
    {
    }
  }

  lemma DropShellKeepsInv(s: CacheState, n: TrackName)
    requires Inv(s)
    ensures Inv(DropShell(s, n)) && OnlySpareEvicted(s, DropShell(s, n))
    ensures DropShell(s, n).holds.globalLRU == s.holds.globalLRU && DropShell(s, n).holds.since == s.holds.since
    ensures DropShell(s, n).totalCachedBytes == s.totalCachedBytes
    ensures forall k: GroupKey :: HasGroup(DropShell(s, n).tracks, k) <==> HasGroup(s.tracks, k)
    ensures NoShell(DropShell(s, n), n)
  {
    hide ContentsOk, HoldsOk, Linked, TrackBytes, SubsOk, TrackLruOk, AllTracks, CachedBytes, Elsewhere;
    hide PinsElsewhere, FetchesElsewhere, SubsElsewhere, CountsElsewhere, OnlySpareEvicted;
    if n in s.tracks && s.tracks[n].groups == map[] && CanEvict(s.tracks, s.holds.fetches, n) {
      NoGroupsLinked(s.tracks, s.holds, n);
      NoHoldsElsewhere(s.holds, n);
      NoSubsElsewhere(s.tracks, s.subs, n);
      DropTrackStepKeepsInv(s, n, 0);
      EmptyTrackDropped(s, DropShell(s, n), n);
    } else {
      NothingEvicted(s);
    }
  }

  // --- Eviction for the byte limit ----------------------------------------------------

  lemma ListedIsEvictable(s: CacheState, k: GroupKey)
    requires Inv(s) && k in s.holds.globalLRU
    ensures k.0 in s.tracks && k.0 in s.holds.groupLRU && CanForget(s.tracks[k.0], k.1)
  {
    assert HasGroup(s.tracks, k);
    assert ContentsOk(s.tracks[k.0]);
  }

  /** One step: the group of entry k, and its track's shell. */
  function EvictListed(s: CacheState, k: GroupKey): (r: CacheState)
    requires Inv(s) && k in s.holds.globalLRU
  {
    ListedIsEvictable(s, k);
    DropShell(EvictGroupStep(s, k.0, k.1), k.0)
  }

  /** Exactly the group k is gone, with its bytes. */
  ghost predicate OneGone(a: CacheState, b: CacheState, k: GroupKey) {
    && HasGroup(a.tracks, k) && (forall j: GroupKey :: HasGroup(b.tracks, j) <==> HasGroup(a.tracks, j) && j != k)
    && b.totalCachedBytes + a.tracks[k.0].groups[k.1].totalBytes == a.totalCachedBytes
    && b.holds.since == a.holds.since
  }

  lemma GroupGone(s: CacheState, k: GroupKey)
    requires Inv(s) && k in s.holds.globalLRU
    ensures k.0 in s.tracks && k.0 in s.holds.groupLRU && CanForget(s.tracks[k.0], k.1)
    ensures OneGone(s, EvictListed(s, k), k)
  {
    hide Inv, DropShell, ForgottenIndex, OnlySpareEvicted;
    ListedIsEvictable(s, k);
    EvictGroupStepKeepsInv(s, k.0, k.1);
    var r := EvictGroupStep(s, k.0, k.1);
    forall j: GroupKey
      ensures HasGroup(r.tracks, j) <==> HasGroup(s.tracks, j) && j != k
    {
    }
    DropShellKeepsInv(r, k.0);
  }

  lemma EvictListedKeepsInv(s: CacheState, i: nat)
    requires Inv(s) && i < |s.holds.globalLRU| && !JoinPoint(s, s.holds.globalLRU[i])
    ensures var r := EvictListed(s, s.holds.globalLRU[i]);
            && Inv(r) && OnlySpareEvicted(s, r)
            && r.holds.globalLRU == s.holds.globalLRU[..i] + s.holds.globalLRU[i + 1..]
            && OneGone(s, r, s.holds.globalLRU[i]) && NoShell(r, s.holds.globalLRU[i].0)
  {
    var k := s.holds.globalLRU[i];
    assert NoRepeats(s.holds.globalLRU);
    GroupGone(s, k);
    hide Inv, OnlySpareEvicted, DropShell, ForgottenIndex, NoShell;
    ListedIsEvictable(s, k);
    WithoutCuts(s.holds.globalLRU, i);
    EvictGroupStepKeepsInv(s, k.0, k.1);
    OneGroupEvicted(s, k);
    DropShellKeepsInv(EvictGroupStep(s, k.0, k.1), k.0);
    EvictionsCompose(s, EvictGroupStep(s, k.0, k.1), EvictListed(s, k));
  }

  /** One pass from the oldest entry: entries at i and above have been examined. */
  function ByteEvict(s: CacheState, i: nat, target: nat): CacheState
    requires Inv(s) && i <= |s.holds.globalLRU|
    decreases i
  {
    hide Inv, OnlySpareEvicted, EvictListed;
    if s.totalCachedBytes <= target || i == 0 then s
    else
      var k := s.holds.globalLRU[i - 1];
      if JoinPoint(s, k) then ByteEvict(s, i - 1, target)
      else
        EvictListedKeepsInv(s, i - 1);
        ByteEvict(EvictListed(s, k), i - 1, target)
  }

  /** Every examined entry that is still listed is the join point of a live track. */
  ghost predicate RestAreJoinPoints(s: CacheState, i: nat) {
    forall j :: i <= j < |s.holds.globalLRU| ==> JoinPoint(s, s.holds.globalLRU[j])
  }

  lemma JoinPointsSurvive(s: CacheState, i: nat)
    requires Inv(s) && i < |s.holds.globalLRU| && !JoinPoint(s, s.holds.globalLRU[i]) && RestAreJoinPoints(s, i + 1)
    ensures RestAreJoinPoints(EvictListed(s, s.holds.globalLRU[i]), i)
  {
    hide Inv, EvictListed;
    EvictListedKeepsInv(s, i);
    var r := EvictListed(s, s.holds.globalLRU[i]);
    forall j | i <= j < |r.holds.globalLRU|
      ensures JoinPoint(r, r.holds.globalLRU[j])
    {
      var k := r.holds.globalLRU[j];
      assert k == s.holds.globalLRU[j + 1] && JoinPoint(s, k);
      ListedIsEvictable(r, k);
    }
  }

  /** What went had been unused for longer than whatever could have gone and stayed. */
  ghost predicate OldestWent(a: CacheState, b: CacheState) {
    forall k: GroupKey, j: GroupKey ::
      HasGroup(a.tracks, k) && !HasGroup(b.tracks, k) && j in b.holds.globalLRU && !JoinPoint(b, j) ==>
        SinceIn(a.holds.since, k) < SinceIn(a.holds.since, j)
  }

  /** Without its last victim the pass would not have met the target. */
  ghost predicate NoMoreThanNeeded(a: CacheState, b: CacheState, target: int) {
    b == a ||
    exists k: GroupKey ::
      HasGroup(a.tracks, k) && !HasGroup(b.tracks, k) &&
      b.totalCachedBytes + a.tracks[k.0].groups[k.1].totalBytes > target
  }

  lemma AgesOfInv(s: CacheState)
    requires Inv(s)
    ensures NewestFirst(s.holds.globalLRU, s.holds.since, s.holds.clock)
  {
  }

  lemma OneWent(s: CacheState, i: nat, r: CacheState, c: CacheState)
    requires Inv(s) && i < |s.holds.globalLRU| && RestAreJoinPoints(s, i + 1) && OneGone(s, r, s.holds.globalLRU[i])
    requires r.holds.globalLRU == s.holds.globalLRU[..i] + s.holds.globalLRU[i + 1..]
    requires OldestWent(r, c) && OnlySpareEvicted(s, c) && Inv(c)
    requires forall j: GroupKey :: j in c.holds.globalLRU ==> j in r.holds.globalLRU
    ensures OldestWent(s, c)
  {
    hide Inv;
    var lru, k := s.holds.globalLRU, s.holds.globalLRU[i];
    AgesOfInv(s);
    forall j: GroupKey | j in c.holds.globalLRU && !JoinPoint(c, j)
      ensures SinceIn(s.holds.since, k) < SinceIn(s.holds.since, j)
    {
      ListedIsEvictable(c, j);
      assert !JoinPoint(s, j);
      var x :| 0 <= x < |r.holds.globalLRU| && r.holds.globalLRU[x] == j;
      assert x < i && lru[x] == j;
      ListedEarlierIsNewer(lru, s.holds.since, s.holds.clock, x, i);
    }
  }

  lemma LastWasNeeded(s: CacheState, k: GroupKey, r: CacheState, c: CacheState, target: nat)
    requires s.totalCachedBytes > target && OneGone(s, r, k) && OnlySpareEvicted(s, r) && OnlySpareEvicted(r, c)
    requires NoMoreThanNeeded(r, c, target)
    ensures NoMoreThanNeeded(s, c, target)
  {
    if c != r {
      var j: GroupKey :|
        HasGroup(r.tracks, j) && !HasGroup(c.tracks, j) && c.totalCachedBytes + r.tracks[j.0].groups[j.1].totalBytes > target;
      assert HasGroup(s.tracks, j);
    }
  }

  /** The pass ends within the target, or with nothing listed but join points. It
      takes no pinned group and no join point, and keeps the invariant. It takes the
      longest unused, and no more of them than needed. */
  lemma {:induction false} ByteEvictResult(s: CacheState, i: nat, target: nat)
    requires Inv(s) && i <= |s.holds.globalLRU| && RestAreJoinPoints(s, i)
    ensures var r := ByteEvict(s, i, target);
            && Inv(r) && OnlySpareEvicted(s, r)
            && (r.totalCachedBytes <= target || RestAreJoinPoints(r, 0))
            && (forall k: GroupKey :: k in r.holds.globalLRU ==> k in s.holds.globalLRU)
            && OldestWent(s, r) && NoMoreThanNeeded(s, r, target)
    decreases i
  {
    hide Inv, OnlySpareEvicted, EvictListed, JoinPoint, OneGone;
    if s.totalCachedBytes <= target || i == 0 {
      NothingEvicted(s);
    } else if JoinPoint(s, s.holds.globalLRU[i - 1]) {
      ByteEvictResult(s, i - 1, target);
    } else {
      var r := EvictListed(s, s.holds.globalLRU[i - 1]);
      EvictListedKeepsInv(s, i - 1);
      JoinPointsSurvive(s, i - 1);
      ByteEvictResult(r, i - 1, target);
      var c := ByteEvict(r, i - 1, target);
      EvictionsCompose(s, r, c);
      OneWent(s, i - 1, r, c);
      LastWasNeeded(s, s.holds.globalLRU[i - 1], r, c, target);
    }
  }

  /** The track is published and has the group of its Largest Object. */
  ghost predicate LiveEdge(t: TrackState) {
    t.liveWritebackCount > 0 && t.largest.Some? && t.largest.value.group in t.groups
  }

  lemma LiveEdgesStay(a: CacheState, b: CacheState)
    requires OnlySpareEvicted(a, b)
    ensures forall n :: n in a.tracks && LiveEdge(a.tracks[n]) ==> n in b.tracks && LiveEdge(b.tracks[n])
  {
    forall n | n in a.tracks && LiveEdge(a.tracks[n])
      ensures n in b.tracks && LiveEdge(b.tracks[n])
    {
      var k := (n, a.tracks[n].largest.value.group);
      assert HasGroup(a.tracks, k) && JoinPoint(a, k) && HasGroup(b.tracks, k);
    }
  }

  /** Nothing is a join point but the group of a live track's Largest Object. */
  lemma JoinPointIsLiveEdge(s: CacheState, k: GroupKey)
    ensures JoinPoint(s, k) && HasGroup(s.tracks, k) <==>
            k.0 in s.tracks && LiveEdge(s.tracks[k.0]) && s.tracks[k.0].largest.value.group == k.1
  {
  }

  /** The low watermark. */
  function TargetBytes(limits: Limits): nat {
    if limits.minEvictionBytes < limits.maxCachedBytes then limits.maxCachedBytes - limits.minEvictionBytes else 0
  }

  function EvictForBytes(s: CacheState): CacheState
    requires Inv(s)
  {
    if s.limits.maxCachedBytes == 0 || s.totalCachedBytes <= s.limits.maxCachedBytes then s
    else ByteEvict(s, |s.holds.globalLRU|, TargetBytes(s.limits))
  }

  lemma EvictForBytesResult(s: CacheState)
    requires Inv(s)
    ensures var r := EvictForBytes(s);
            && Inv(r) && OnlySpareEvicted(s, r)
            && (s.limits.maxCachedBytes == 0 || s.totalCachedBytes <= s.limits.maxCachedBytes ==> r == s)
            && (0 < s.limits.maxCachedBytes < s.totalCachedBytes ==>
                  || r.totalCachedBytes + s.limits.minEvictionBytes <= s.limits.maxCachedBytes
                  || r.totalCachedBytes <= 0 || RestAreJoinPoints(r, 0))
            && OldestWent(s, r) && NoMoreThanNeeded(s, r, s.limits.maxCachedBytes - s.limits.minEvictionBytes)
            && (forall n :: n in s.tracks && LiveEdge(s.tracks[n]) ==> n in r.tracks && LiveEdge(r.tracks[n]))
  {
    hide Inv, OnlySpareEvicted, LiveEdge;
    NothingEvicted(s);
    ByteEvictResult(s, |s.holds.globalLRU|, TargetBytes(s.limits));
    LiveEdgesStay(s, EvictForBytes(s));
  }

  // --- Eviction for the per-track group limit ------------------------------------------------

  lemma OldestIsListed(s: CacheState, n: TrackName)
    requires Inv(s) && n in s.tracks && s.holds.groupLRU[n] != []
    ensures var lru := s.holds.groupLRU[n];
            && (n, lru[|lru| - 1]) in s.holds.globalLRU
            && Without(lru, lru[|lru| - 1]) == lru[..|lru| - 1]
  {
    LastIsListed(s.holds, n);
  }

  lemma LastIsListed(d: Holds, n: TrackName)
    requires HoldsOk(d) && n in d.groupLRU && d.groupLRU[n] != []
    ensures var lru := d.groupLRU[n];
            && (n, lru[|lru| - 1]) in d.globalLRU
            && Without(lru, lru[|lru| - 1]) == lru[..|lru| - 1]
  {
    var lru := d.groupLRU[n];
    assert lru[|lru| - 1] in lru;
    WithoutCuts(lru, |lru| - 1);
  }

  /** b comes from a by evicting groups of track n from the back of its LRU. */
  ghost predicate Trimmed(a: CacheState, b: CacheState, n: TrackName) {
    && n in a.tracks && n in b.tracks && n in a.holds.groupLRU && n in b.holds.groupLRU
    && b == a.(tracks := b.tracks, holds := b.holds, totalCachedBytes := b.totalCachedBytes)
    && b.holds.pins == a.holds.pins && b.holds.fetches == a.holds.fetches
    && b.tracks == a.tracks[n := b.tracks[n]] && SameMarks(a.tracks[n], b.tracks[n])
    && b.holds.groupLRU[n] <= a.holds.groupLRU[n]
    && (forall g: Id :: g in b.tracks[n].groups <==>
          g in a.tracks[n].groups && (g in a.holds.groupLRU[n] ==> g in b.holds.groupLRU[n]))
    && (forall g: Id :: g in b.tracks[n].groups ==> b.tracks[n].groups[g] == a.tracks[n].groups[g])
  }

  lemma TrimmedNone(s: CacheState, n: TrackName)
    requires n in s.tracks && n in s.holds.groupLRU
    ensures Trimmed(s, s, n)
  {
    assert s.tracks == s.tracks[n := s.tracks[n]];
  }

  lemma TrimmedOnce(s: CacheState, n: TrackName, g: Id)
    requires n in s.tracks && n in s.holds.groupLRU && CanForget(s.tracks[n], g)
    requires var lru := s.holds.groupLRU[n]; g in lru && Without(lru, g) == lru[..|lru| - 1]
    ensures var r := EvictGroupStep(s, n, g);
            && Trimmed(s, r, n) && n in r.tracks && n in r.holds.groupLRU && r.limits == s.limits
            && |r.holds.groupLRU[n]| < |s.holds.groupLRU[n]| && |r.tracks[n].groups| == |s.tracks[n].groups| - 1
  {
    hide ForgottenIndex;
    var r := EvictGroupStep(s, n, g);
    assert r.tracks[n].groups == s.tracks[n].groups - {g};
    assert r.holds.groupLRU[n] == Without(s.holds.groupLRU[n], g);
    assert r.tracks == s.tracks[n := r.tracks[n]];
  }

  lemma TrimsCompose(a: CacheState, b: CacheState, c: CacheState, n: TrackName)
    requires Trimmed(a, b, n) && Trimmed(b, c, n)
    ensures Trimmed(a, c, n)
  {
  }

  function EvictOldest(s: CacheState, n: TrackName): CacheState
    requires Inv(s) && n in s.tracks && s.holds.groupLRU[n] != []
  {
    var g := s.holds.groupLRU[n][|s.holds.groupLRU[n]| - 1];
    OldestIsListed(s, n);
    EvictGroupStepKeepsInv(s, n, g);
    EvictGroupStep(s, n, g)
  }

  lemma EvictOldestKeepsInv(s: CacheState, n: TrackName)
    requires Inv(s) && n in s.tracks && s.holds.groupLRU[n] != []
    ensures Inv(EvictOldest(s, n)) && Trimmed(s, EvictOldest(s, n), n)
    ensures n in EvictOldest(s, n).tracks && n in EvictOldest(s, n).holds.groupLRU
    ensures EvictOldest(s, n).limits == s.limits
    ensures |EvictOldest(s, n).holds.groupLRU[n]| < |s.holds.groupLRU[n]|
    ensures |EvictOldest(s, n).tracks[n].groups| == |s.tracks[n].groups| - 1
  {
    TracksListed(s);
    hide Inv, Trimmed, EvictGroupStep;
    var g := s.holds.groupLRU[n][|s.holds.groupLRU[n]| - 1];
    OldestIsListed(s, n);
    EvictGroupStepKeepsInv(s, n, g);
    TrimmedOnce(s, n, g);
  }

  lemma TracksListed(s: CacheState)
    requires Inv(s)
    ensures s.holds.groupLRU.Keys == s.tracks.Keys
  {
  }

  /** The oldest evictable groups of a track go until the limit holds. */
  function GroupEvict(s: CacheState, n: TrackName): CacheState
    requires Inv(s) && n in s.tracks
    decreases |s.holds.groupLRU[n]|
  {
    if s.limits.maxCachedGroupsPerTrack == 0 || |s.tracks[n].groups| <= s.limits.maxCachedGroupsPerTrack
       || s.holds.groupLRU[n] == [] then s
    else
      EvictOldestKeepsInv(s, n);
      GroupEvict(EvictOldest(s, n), n)
  }

  /** What went had been unused for longer than what is still listed. */
  ghost predicate OldestTrimmed(a: CacheState, b: CacheState, n: TrackName)
    requires n in a.tracks && n in b.tracks && n in b.holds.groupLRU
  {
    forall g: Id, h: Id ::
      g in a.tracks[n].groups && g !in b.tracks[n].groups && h in b.holds.groupLRU[n] ==>
        SinceIn(a.holds.since, (n, g)) < SinceIn(a.holds.since, (n, h))
  }

  lemma CutOffIsOlder(n: TrackName, lru: seq<Id>, rest: seq<Id>, since: map<GroupKey, nat>, clock: nat, g: Id, h: Id)
    requires NewestFirst(KeysOf(n, lru), since, clock) && rest <= lru && g in lru && g !in rest && h in rest
    ensures SinceIn(since, (n, g)) < SinceIn(since, (n, h))
  {
    var i :| 0 <= i < |rest| && rest[i] == h;
    var j :| 0 <= j < |lru| && lru[j] == g;
    assert |rest| <= j;
    ListedEarlierIsNewer(KeysOf(n, lru), since, clock, i, j);
  }

  lemma TrackAges(s: CacheState, n: TrackName)
    requires Inv(s) && n in s.tracks
    ensures n in s.holds.groupLRU && NewestFirst(KeysOf(n, s.holds.groupLRU[n]), s.holds.since, s.holds.clock)
  {
  }

  lemma TrimmedAreOldest(a: CacheState, b: CacheState, n: TrackName)
    requires Inv(a) && Trimmed(a, b, n)
    ensures OldestTrimmed(a, b, n)
  {
    hide Inv, NewestFirst, KeysOf;
    TrackAges(a, n);
    forall g: Id, h: Id | g in a.tracks[n].groups && g !in b.tracks[n].groups && h in b.holds.groupLRU[n]
      ensures SinceIn(a.holds.since, (n, g)) < SinceIn(a.holds.since, (n, h))
    {
      CutOffIsOlder(n, a.holds.groupLRU[n], b.holds.groupLRU[n], a.holds.since, a.holds.clock, g, h);
    }
  }

  /** It ends within the limit or with every remaining group pinned, takes the longest
      unused, and stops as soon as the limit holds. */
  lemma {:induction false} GroupEvictResult(s: CacheState, n: TrackName)
    requires Inv(s) && n in s.tracks
    ensures var r := GroupEvict(s, n);
            && Inv(r) && Trimmed(s, r, n)
            && (s.limits.maxCachedGroupsPerTrack == 0 || |r.tracks[n].groups| <= s.limits.maxCachedGroupsPerTrack
                || r.holds.groupLRU[n] == [])
            && OldestTrimmed(s, r, n)
            && (|s.tracks[n].groups| >= s.limits.maxCachedGroupsPerTrack ==> |r.tracks[n].groups| >= s.limits.maxCachedGroupsPerTrack)
            && (s.limits.maxCachedGroupsPerTrack == 0 || |s.tracks[n].groups| <= s.limits.maxCachedGroupsPerTrack ==> r == s)
    decreases |s.holds.groupLRU[n]|
  {
    assert n in s.holds.groupLRU;
    hide Inv, Trimmed, EvictOldest, OldestTrimmed;
    if s.limits.maxCachedGroupsPerTrack == 0 || |s.tracks[n].groups| <= s.limits.maxCachedGroupsPerTrack
       || s.holds.groupLRU[n] == [] {
      TrimmedNone(s, n);
      TrimmedAreOldest(s, s, n);
    } else {
      var r := EvictOldest(s, n);
      EvictOldestKeepsInv(s, n);
      GroupEvictResult(r, n);
      TrimsCompose(s, r, GroupEvict(r, n), n);
      TrimmedAreOldest(s, GroupEvict(r, n), n);
    }
  }
}
