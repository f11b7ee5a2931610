/** The pruned, counted tree of namespaces. It refines a flat map from namespace to
    content: pruning drops nothing, and its count never underflows. */
module NamespaceTrees {
  import opened Locations
  import opened HopPaths
  import opened Names
  import opened Routes

  datatype Options = PUBLISH | NAMESPACE | BOTH

  /** One SUBSCRIBE_NAMESPACE. Without a handle nothing is sent to it. */
  datatype Info = Info(forward: bool, options: Options, handle: bool, peerID: string)

  datatype Content = Content(publishes: map<Bytes, Session>, subscribers: map<Session, Info>, routes: seq<Route>) {
    predicate Any() {
      publishes != map[] || subscribers != map[] || routes != []
    }
  }

  /** What a subscription was last told, and from which generation of which route. */
  datatype Ad = Ad(generation: nat, path: Path, cost: Cost)

  /** A subscriber session and the length of its prefix. */
  type AdKey = (Session, nat)
  type Ads = map<AdKey, Ad>

  /** Advertisements are kept on the node they are about, but do not keep it alive. */
  datatype Node = Node(content: Content, children: map<Bytes, Node>, activeChildren: nat, ads: Ads)

  const NOTHING := Content(map[], map[], [])
  const BARE := Node(NOTHING, map[], 0, map[])

  /** Such a node is kept. */
  predicate Active(n: Node) {
    n.content.Any() || n.activeChildren > 0
  }

  function ChildOf(n: Node, key: Bytes): Node {
    if key in n.children then n.children[key] else BARE
  }

  /** The flat map that the tree stands for. */
  function ContentAt(n: Node, ns: Namespace): Content
    decreases |ns|
  {
    if ns == [] then n.content else ContentAt(ChildOf(n, ns[0]), ns[1..])
  }

  /** The advertisements of a namespace; a missing node has none. */
  function AdsAt(n: Node, ns: Namespace): Ads
    decreases |ns|
  {
    if ns == [] then n.ads else AdsAt(ChildOf(n, ns[0]), ns[1..])
  }

  lemma {:induction false} BareHasNoAds(ns: Namespace)
    ensures AdsAt(BARE, ns) == map[]
    decreases |ns|
  {
    if ns != [] {
      BareHasNoAds(ns[1..]);
    }
  }

  ghost function ActiveKeys(children: map<Bytes, Node>): set<Bytes> {
    set k | k in children && Active(children[k])
  }

  /** Every node counts at least its active children. */
  ghost predicate Counted(n: Node) {
    |ActiveKeys(n.children)| <= n.activeChildren && forall k :: k in n.children ==> Counted(n.children[k])
  }

  /** A node that may be pruned has no content at or below it. */
  lemma {:induction false} InactiveHasNothing(n: Node, ns: Namespace)
    requires Counted(n) && !Active(n)
    ensures ContentAt(n, ns) == NOTHING
    decreases |ns|
  {
    if ns != [] {
      assert ns[0] !in ActiveKeys(n.children);
      InactiveHasNothing(ChildOf(n, ns[0]), ns[1..]);
    }
  }

  // --- A change on its way up -----------------------------------------------------------

  /** What a parent learns of a change below: nothing it counts, a child that got its
      first content, or a child that is to be pruned. */
  datatype Change = Same | Gained | Lost

  ghost predicate Follows(before: Node, after: Node, change: Change) {
    && Counted(after)
    && match change
       case Same => Active(after) <==> Active(before)
       case Gained => Active(after)
       case Lost => Active(before) && !Active(after)
  }

  /** The parent with its child replaced, or pruned, and its count adapted. */
  function Lift(n: Node, key: Bytes, child: Node, change: Change): (Node, Change)
    requires change.Lost? ==> n.activeChildren > 0
  {
    match change
    case Same => (n.(children := n.children[key := child]), Same)
    case Gained =>
      (n.(children := n.children[key := child], activeChildren := n.activeChildren + 1),
       if n.activeChildren == 0 && !n.content.Any() then Gained else Same)
    case Lost =>
      var after := n.(children := n.children - {key}, activeChildren := n.activeChildren - 1);
      (after, if Active(after) then Same else Lost)
  }

  lemma OtherActiveKeys(children: map<Bytes, Node>, key: Bytes, child: Node)
    ensures ActiveKeys(children - {key}) == ActiveKeys(children) - {key}
    ensures ActiveKeys(children[key := child]) - {key} == ActiveKeys(children) - {key}
    ensures key in ActiveKeys(children) <==> key in children && Active(children[key])
    ensures key in ActiveKeys(children[key := child]) <==> Active(child)
  {
  }

  lemma SizeWithout(s: set<Bytes>, key: Bytes)
    ensures |s| == |s - {key}| + (if key in s then 1 else 0)
  {
    if key !in s {
      assert s - {key} == s;
    }
  }

  lemma ActiveKeysCount(children: map<Bytes, Node>, key: Bytes, child: Node)
    ensures |ActiveKeys(children[key := child])| == |ActiveKeys(children - {key})| + (if Active(child) then 1 else 0)
    ensures |ActiveKeys(children)| ==
            |ActiveKeys(children - {key})| + (if key in children && Active(children[key]) then 1 else 0)
  {
    hide ActiveKeys, Active;
    OtherActiveKeys(children, key, child);
    SizeWithout(ActiveKeys(children), key);
    SizeWithout(ActiveKeys(children[key := child]), key);
  }

  lemma LostFollows(n: Node, key: Bytes, child: Node)
    requires Counted(n) && Follows(ChildOf(n, key), child, Lost)
    ensures n.activeChildren > 0
    ensures Follows(n, Lift(n, key, child, Lost).0, Lift(n, key, child, Lost).1)
  {
    hide ActiveKeys;
    ActiveKeysCount(n.children, key, child);
  }

  lemma PutFollows(n: Node, key: Bytes, child: Node, change: Change)
    requires Counted(n) && Follows(ChildOf(n, key), child, change) && !change.Lost?
    ensures Follows(n, Lift(n, key, child, change).0, Lift(n, key, child, change).1)
  {
    hide ActiveKeys;
    ActiveKeysCount(n.children, key, child);
  }

  /** The count check of the pruning loop never fails, and the counts stay right. */
  lemma LiftFollows(n: Node, key: Bytes, child: Node, change: Change)
    requires Counted(n) && Follows(ChildOf(n, key), child, change)
    ensures change.Lost? ==> n.activeChildren > 0
    ensures Follows(n, Lift(n, key, child, change).0, Lift(n, key, child, change).1)
  {
    hide Counted, Lift;
    if change.Lost? {
      LostFollows(n, key, child);
    } else {
      PutFollows(n, key, child, change);
    }
  }

  ghost predicate Exact(n: Node) {
    |ActiveKeys(n.children)| == n.activeChildren
  }

  ghost predicate ExactAll(n: Node) {
    Exact(n) && forall k :: k in n.children ==> ExactAll(n.children[k])
  }

  /** The count is not always exact: a child that already counts through its own
      children is counted again when it gets its first content, and only then. */
  lemma CountStaysExact(n: Node, key: Bytes, child: Node, change: Change)
    requires Counted(n) && Exact(n) && Follows(ChildOf(n, key), child, change)
    requires change.Lost? ==> n.activeChildren > 0
    ensures Exact(Lift(n, key, child, change).0) <==> !(change.Gained? && Active(ChildOf(n, key)))
    ensures Active(ChildOf(n, key)) ==> n.activeChildren > 0
  {
    hide Counted, ActiveKeys;
    ActiveKeysCount(n.children, key, child);
  }

  lemma ExactLifts(n: Node, key: Bytes, child: Node, change: Change)
    requires Counted(n) && ExactAll(n) && Follows(ChildOf(n, key), child, change)
    requires change.Lost? ==> n.activeChildren > 0
    ensures var (after, change') := Lift(n, key, child, change);
            && (ExactAll(after) <==> !(change.Gained? && Active(ChildOf(n, key))) && (change.Lost? || ExactAll(child)))
            && (change'.Gained? ==> !Active(n))
            && (change.Gained? && Active(ChildOf(n, key)) ==> change'.Same?)
            && (change.Same? ==> change'.Same?)
  {
    hide Counted, Exact;
    CountStaysExact(n, key, child, change);
    var after := Lift(n, key, child, change).0;
    if !change.Lost? {
      assert key in after.children && after.children[key] == child;
      assert forall k :: k in after.children && k != key ==> k in n.children && after.children[k] == n.children[k];
    }
  }

  /** So a count can stay positive without any child: here the namespaces a/b and a
      are added, and then removed in the same order. */
  lemma CountCanStayPositive(a: Bytes, b: Bytes, content: Content)
    requires content.Any()
    ensures var upper := Lift(BARE, b, BARE.(content := content), Gained);
            var added := Lift(Lift(BARE, a, upper.0, upper.1).0, a, upper.0.(content := content), Gained).0;
            var lower := Lift(upper.0.(content := content), b, BARE, Lost);
            var removed := Lift(Lift(added, a, lower.0, lower.1).0, a, lower.0.(content := NOTHING), Lost).0;
            removed.children == map[] && removed.activeChildren == 1
  {
  }

  lemma {:induction false} LiftContents(n: Node, key: Bytes, child: Node, change: Change, m: Namespace)
    requires Counted(n) && Follows(ChildOf(n, key), child, change)
    requires change.Lost? ==> n.activeChildren > 0
    ensures ContentAt(Lift(n, key, child, change).0, m) ==
            if m != [] && m[0] == key then ContentAt(child, m[1..]) else ContentAt(n, m)
  {
    if change.Lost? && m != [] && m[0] == key {
      InactiveHasNothing(child, m[1..]);
      InactiveHasNothing(BARE, m[1..]);
    }
  }

  /** The advertisements at m are of a namespace that has a route. */
  ghost predicate TidyAt(n: Node, m: Namespace) {
    ContentAt(n, m).routes == [] ==> AdsAt(n, m) == map[]
  }

  /** Pruning loses no advertisement but those of the changed node, and those only if it
      has no content left. */
  ghost predicate AdsKept(before: Node, after: Node, rest: Namespace, content: Content) {
    && (forall m :: (if m == rest then content.Any() else TidyAt(before, m)) ==> AdsAt(after, m) == AdsAt(before, m))
    && (forall m :: AdsAt(after, m) == AdsAt(before, m) || AdsAt(after, m) == map[])
  }

  lemma {:induction false} LiftAds(n: Node, key: Bytes, child: Node, change: Change, m: Namespace)
    requires change.Lost? ==> n.activeChildren > 0
    ensures AdsAt(Lift(n, key, child, change).0, m) ==
            if m == [] || m[0] != key then AdsAt(n, m) else if change.Lost? then map[] else AdsAt(child, m[1..])
  {
    hide Active;
    var after := Lift(n, key, child, change).0;
    if m != [] {
      BareHasNoAds(m[1..]);
      assert ChildOf(after, m[0]) ==
             if m[0] != key then ChildOf(n, m[0]) else if change.Lost? then BARE else child;
    }
  }

  lemma {:induction false} AdsLift(n: Node, key: Bytes, child: Node, change: Change, rest: Namespace, content: Content, m: Namespace)
    requires Counted(n) && Follows(ChildOf(n, key), child, change)
    requires change.Lost? ==> n.activeChildren > 0
    requires Differs(ChildOf(n, key), child, rest, content) && AdsKept(ChildOf(n, key), child, rest, content)
    ensures (if m == [key] + rest then content.Any() else TidyAt(n, m)) ==> AdsAt(Lift(n, key, child, change).0, m) == AdsAt(n, m)
    ensures AdsAt(Lift(n, key, child, change).0, m) == AdsAt(n, m) || AdsAt(Lift(n, key, child, change).0, m) == map[]
  {
    hide Lift;
    LiftAds(n, key, child, change, m);
    if m != [] && m[0] == key {
      assert m == [key] + m[1..];
      assert m == [key] + rest <==> m[1..] == rest;
      if change.Lost? {
        InactiveHasNothing(child, m[1..]);
        assert ContentAt(child, m[1..]) == if m[1..] == rest then content else ContentAt(ChildOf(n, key), m[1..]);
      } else {
        assert TidyAt(n, m) <==> TidyAt(ChildOf(n, key), m[1..]);
      }
    }
  }

  lemma AdsLifts(n: Node, key: Bytes, child: Node, change: Change, rest: Namespace, content: Content)
    requires Counted(n) && Follows(ChildOf(n, key), child, change)
    requires change.Lost? ==> n.activeChildren > 0
    requires Differs(ChildOf(n, key), child, rest, content) && AdsKept(ChildOf(n, key), child, rest, content)
    ensures AdsKept(n, Lift(n, key, child, change).0, [key] + rest, content)
  {
    hide Lift, Counted, TidyAt;
    var after := Lift(n, key, child, change).0;
    forall m
      ensures (if m == [key] + rest then content.Any() else TidyAt(n, m)) ==> AdsAt(after, m) == AdsAt(n, m)
      ensures AdsAt(after, m) == AdsAt(n, m) || AdsAt(after, m) == map[]
    {
      AdsLift(n, key, child, change, rest, content, m);
    }
  }

  // --- The path to a node -----------------------------------------------------------

  /** The node at ns; a missing one is created bare. */
  function At(n: Node, ns: Namespace): Node
    decreases |ns|
  {
    if ns == [] then n else At(ChildOf(n, ns[0]), ns[1..])
  }

  lemma {:induction false} AtStep(n: Node, ns: Namespace, key: Bytes)
    ensures At(n, ns + [key]) == ChildOf(At(n, ns), key)
    decreases |ns|
  {
    if ns != [] {
      assert (ns + [key])[1..] == ns[1..] + [key];
      AtStep(ChildOf(n, ns[0]), ns[1..], key);
    }
  }

  lemma {:induction false} AtCounted(n: Node, ns: Namespace)
    requires Counted(n)
    ensures Counted(At(n, ns))
    decreases |ns|
  {
    if ns != [] {
      assert Counted(BARE);
      AtCounted(ChildOf(n, ns[0]), ns[1..]);
    }
  }

  lemma {:induction false} AtContents(n: Node, ns: Namespace)
    ensures ContentAt(n, ns) == At(n, ns).content
    decreases |ns|
  {
    if ns != [] {
      AtContents(ChildOf(n, ns[0]), ns[1..]);
    }
  }

  // --- Changing the content of one node ----------------------------------------------

  /** after has content at rest, and agrees with before everywhere else. */
  ghost predicate Differs(before: Node, after: Node, rest: Namespace, content: Content) {
    forall m :: ContentAt(after, m) == if m == rest then content else ContentAt(before, m)
  }

  ghost predicate Changes(before: Node, after: Node, ns: Namespace, content: Content) {
    Differs(before, after, ns, content) && AdsKept(before, after, ns, content)
  }

  lemma DiffersLifts(n: Node, key: Bytes, child: Node, change: Change, rest: Namespace, content: Content)
    requires Counted(n) && Follows(ChildOf(n, key), child, change)
    requires change.Lost? ==> n.activeChildren > 0
    requires Differs(ChildOf(n, key), child, rest, content)
    ensures Differs(n, Lift(n, key, child, change).0, [key] + rest, content)
  {
    forall m
      ensures ContentAt(Lift(n, key, child, change).0, m) == if m == [key] + rest then content else ContentAt(n, m)
    {
      LiftContents(n, key, child, change, m);
      if m != [] && m[0] == key {
        assert m == [key] + m[1..];
        assert m == [key] + rest <==> m[1..] == rest;
      }
    }
  }

  lemma {:induction false} AtExact(n: Node, ns: Namespace)
    requires ExactAll(n)
    ensures ExactAll(At(n, ns))
    decreases |ns|
  {
    if ns != [] {
      assert ActiveKeys(map[]) == {} && ExactAll(BARE);
      AtExact(ChildOf(n, ns[0]), ns[1..]);
    }
  }

  /** The node has no content but counts a child, and now gets content. */
  ghost predicate CountsTwice(n: Node, ns: Namespace, content: Content) {
    ns != [] && !At(n, ns).content.Any() && content.Any() && At(n, ns).activeChildren > 0
  }

  /** Gives the node at ns the content, tells its ancestors up to the first that was
      already counted, and prunes up to the first that is still needed. Where all counts
      were exact, they stay so unless the node is counted a second time. */
  method Mutate(root: Node, ns: Namespace, content: Content) returns (r: Node)
    requires Counted(root)
    ensures Counted(r) && Differs(root, r, ns, content) && AdsKept(root, r, ns, content)
    ensures ExactAll(root) ==> (ExactAll(r) <==> !CountsTwice(root, ns, content))
  {
    hide Counted, Lift, Differs, AdsKept, ExactAll, Active;
    var node := root;
    var path: seq<Node> := [];
    for i := 0 to |ns|
      invariant |path| == i && node == At(root, ns[..i])
      invariant forall j :: 0 <= j < i ==> path[j] == At(root, ns[..j])
    {
      AtStep(root, ns[..i], ns[i]);
      assert ns[..i] + [ns[i]] == ns[..i + 1];
      path := path + [node];
      node := ChildOf(node, ns[i]);
    }
    assert ns[..|ns|] == ns && ns[|ns|..] == [];
    AtCounted(root, ns);
    var change;
    node, change := MutateNode(node, content);
    if ExactAll(root) {
      AtExact(root, ns);
    }
    var i := |ns|;
    while i > 0
      invariant 0 <= i <= |ns|
      invariant Follows(At(root, ns[..i]), node, change)
      invariant Differs(At(root, ns[..i]), node, ns[i..], content) && AdsKept(At(root, ns[..i]), node, ns[i..], content)
      invariant ExactAll(root) ==> ExactStep(root, ns, content, i, node, change)
    {
      i := i - 1;
      AtCounted(root, ns[..i]);
      AtStep(root, ns[..i], ns[i]);
      assert ns[..i] + [ns[i]] == ns[..i + 1] && [ns[i]] + ns[i + 1..] == ns[i..];
      LiftFollows(path[i], ns[i], node, change);
      DiffersLifts(path[i], ns[i], node, change, ns[i + 1..], content);
      AdsLifts(path[i], ns[i], node, change, ns[i + 1..], content);
      if ExactAll(root) {
        AtExact(root, ns[..i]);
        ExactLifts(path[i], ns[i], node, change);
      }
      var lifted := Lift(path[i], ns[i], node, change);
      node, change := lifted.0, lifted.1;
    }
    r := node;
  }

  /** How the counts are after the change reached depth i. */
  ghost predicate ExactStep(root: Node, ns: Namespace, content: Content, i: nat, node: Node, change: Change)
    requires i <= |ns|
  {
    if i == |ns| then
      ExactAll(node) && (change.Gained? && Active(At(root, ns[..i])) && ns != [] <==> CountsTwice(root, ns, content))
    else
      && (ExactAll(node) <==> !CountsTwice(root, ns, content))
      && (change.Gained? ==> !Active(At(root, ns[..i])))
      && (CountsTwice(root, ns, content) ==> change.Same?)
  }

  /** The change at the node itself. */
  method MutateNode(before: Node, content: Content) returns (after: Node, change: Change)
    requires Counted(before)
    ensures Follows(before, after, change) && Differs(before, after, [], content) && AdsKept(before, after, [], content)
    ensures ExactAll(before) ==> ExactAll(after)
    ensures change.Gained? <==> !before.content.Any() && content.Any()
    ensures change.Gained? ==> (Active(before) <==> before.activeChildren > 0)
  {
    after := before.(content := content);
    change :=
      if !before.content.Any() && content.Any() then Gained
      else if before.content.Any() && !Active(after) then Lost
      else Same;
    forall m
      ensures AdsAt(after, m) == AdsAt(before, m)
    {
    }
  }

  // --- Changing advertisements -------------------------------------------------------------

  predicate Present(n: Node, ns: Namespace)
    decreases |ns|
  {
    ns == [] || (ns[0] in n.children && Present(n.children[ns[0]], ns[1..]))
  }

  lemma {:induction false} ContentIsPresent(n: Node, ns: Namespace)
    requires ContentAt(n, ns).Any()
    ensures Present(n, ns)
    decreases |ns|
  {
    if ns != [] {
      if ns[0] !in n.children {
        InactiveHasNothing(BARE, ns[1..]);
      } else {
        ContentIsPresent(n.children[ns[0]], ns[1..]);
      }
    }
  }

  /** The tree with the advertisements of one node replaced, if the node is there. */
  function PutAds(n: Node, ns: Namespace, ads: Ads): Node
    decreases |ns|
  {
    if ns == [] then n.(ads := ads)
    else if ns[0] in n.children then n.(children := n.children[ns[0] := PutAds(n.children[ns[0]], ns[1..], ads)])
    else n
  }

  lemma {:induction false} PutAdsAt(n: Node, ns: Namespace, ads: Ads, m: Namespace)
    requires ads == map[] || Present(n, ns)
    ensures AdsAt(PutAds(n, ns, ads), m) == if m == ns then ads else AdsAt(n, m)
    ensures ContentAt(PutAds(n, ns, ads), m) == ContentAt(n, m)
    decreases |ns|
  {
    if ns == [] {
    } else if ns[0] !in n.children {
      BareHasNoAds(ns[1..]);
    } else if m != [] && m[0] == ns[0] {
      PutAdsAt(n.children[ns[0]], ns[1..], ads, m[1..]);
      assert m == [m[0]] + m[1..] && ns == [ns[0]] + ns[1..];
    }
  }

  lemma {:induction false} PutAdsCounted(n: Node, ns: Namespace, ads: Ads)
    requires Counted(n)
    ensures Counted(PutAds(n, ns, ads)) && (Active(PutAds(n, ns, ads)) <==> Active(n))
    decreases |ns|
  {
    if ns != [] && ns[0] in n.children {
      var child := PutAds(n.children[ns[0]], ns[1..], ads);
      PutAdsCounted(n.children[ns[0]], ns[1..], ads);
      assert ActiveKeys(n.children[ns[0] := child]) == ActiveKeys(n.children);
    }
  }

  /** A change that every node of a subtree makes to its advertisements. */
  type AdChange = f: (seq<Route>, Ads) -> Ads | f([], map[]) == map[] witness (routes: seq<Route>, ads: Ads) => ads

  function MapAds(n: Node, f: AdChange): Node {
    n.(ads := f(n.content.routes, n.ads), children := map k | k in n.children :: MapAds(n.children[k], f))
  }

  function MapAdsUnder(n: Node, prefix: Namespace, f: AdChange): Node
    decreases |prefix|
  {
    if prefix == [] then MapAds(n, f)
    else if prefix[0] in n.children
    then n.(children := n.children[prefix[0] := MapAdsUnder(n.children[prefix[0]], prefix[1..], f)])
    else n
  }

  lemma {:induction false} MapAdsAt(n: Node, f: AdChange, m: Namespace)
    ensures AdsAt(MapAds(n, f), m) == f(ContentAt(n, m).routes, AdsAt(n, m))
    ensures ContentAt(MapAds(n, f), m) == ContentAt(n, m)
    decreases |m|
  {
    if m != [] {
      if m[0] in n.children {
        MapAdsAt(n.children[m[0]], f, m[1..]);
      } else {
        BareHasNoAds(m[1..]);
        InactiveHasNothing(BARE, m[1..]);
      }
    }
  }

  lemma {:induction false} MapAdsUnderAt(n: Node, prefix: Namespace, f: AdChange, m: Namespace)
    ensures AdsAt(MapAdsUnder(n, prefix, f), m) ==
            if prefix <= m then f(ContentAt(n, m).routes, AdsAt(n, m)) else AdsAt(n, m)
    ensures ContentAt(MapAdsUnder(n, prefix, f), m) == ContentAt(n, m)
    decreases |prefix|
  {
    if prefix == [] {
      MapAdsAt(n, f, m);
    } else if prefix[0] !in n.children {
      if prefix <= m {
        BareHasNoAds(m[1..]);
        InactiveHasNothing(BARE, m[1..]);
      }
    } else if m != [] && m[0] == prefix[0] {
      MapAdsUnderAt(n.children[prefix[0]], prefix[1..], f, m[1..]);
      assert prefix <= m <==> prefix[1..] <= m[1..];
    }
  }

  lemma {:induction false} MapAdsCounted(n: Node, f: AdChange)
    requires Counted(n)
    ensures Counted(MapAds(n, f)) && (Active(MapAds(n, f)) <==> Active(n))
  {
    forall k | k in n.children
      ensures Counted(MapAds(n.children[k], f)) && (Active(MapAds(n.children[k], f)) <==> Active(n.children[k]))
    {
      MapAdsCounted(n.children[k], f);
    }
    assert ActiveKeys(MapAds(n, f).children) == ActiveKeys(n.children);
  }

  lemma {:induction false} MapAdsUnderCounted(n: Node, prefix: Namespace, f: AdChange)
    requires Counted(n)
    ensures Counted(MapAdsUnder(n, prefix, f)) && (Active(MapAdsUnder(n, prefix, f)) <==> Active(n))
    decreases |prefix|
  {
    if prefix == [] {
      MapAdsCounted(n, f);
    } else if prefix[0] in n.children {
      var child := MapAdsUnder(n.children[prefix[0]], prefix[1..], f);
      MapAdsUnderCounted(n.children[prefix[0]], prefix[1..], f);
      assert ActiveKeys(n.children[prefix[0] := child]) == ActiveKeys(n.children);
    }
  }

  // --- Looking up routes -----------------------------------------------------------------

  datatype RouteExclusion = RouteExclusion(session: Option<Session>, hop: nat)

  /** Routes that a request may use. */
  predicate Usable(exclusion: RouteExclusion, r: Route) {
    (exclusion.session.None? || r.session != exclusion.session.value) && !ClusterPathContains(r.path, exclusion.hop)
  }

  function UsableBy(exclusion: RouteExclusion): Route -> bool {
    r => Usable(exclusion, r)
  }

  /** depth is the length of the longest prefix of ns that has routes. */
  ghost predicate IsDeepest(root: Node, ns: Namespace, depth: Option<nat>) {
    && (depth.Some? ==> depth.value <= |ns| && ContentAt(root, ns[..depth.value]).routes != [])
    && (forall k :: 0 <= k <= |ns| && (depth.None? || depth.value < k) ==> ContentAt(root, ns[..k]).routes == [])
  }

  /** Below a missing node there is nothing. */
  lemma BeyondIsBare(root: Node, ns: Namespace, i: nat, k: nat)
    requires i < k <= |ns| && ns[i] !in At(root, ns[..i]).children
    ensures ContentAt(root, ns[..k]) == NOTHING
    decreases k
  {
    BareBelow(root, ns, i, k);
    AtContents(root, ns[..k]);
  }

  lemma {:induction false} BareBelow(root: Node, ns: Namespace, i: nat, k: nat)
    requires i < k <= |ns| && ns[i] !in At(root, ns[..i]).children
    ensures At(root, ns[..k]) == BARE
    decreases k
  {
    AtStep(root, ns[..k - 1], ns[k - 1]);
    assert ns[..k - 1] + [ns[k - 1]] == ns[..k];
    if i < k - 1 {
      BareBelow(root, ns, i, k - 1);
    }
  }

  method FindRouteNode(root: Node, ns: Namespace) returns (depth: Option<nat>, routes: seq<Route>)
    ensures IsDeepest(root, ns, depth)
    ensures routes == if depth.Some? then ContentAt(root, ns[..depth.value]).routes else []
  {
    var node, i: nat := root, 0;
    depth, routes := if root.content.routes == [] then None else Some(0), root.content.routes;
    while i < |ns| && ns[i] in node.children
      invariant i <= |ns| && node == At(root, ns[..i])
      invariant depth.Some? ==> depth.value <= i && ContentAt(root, ns[..depth.value]).routes != []
      invariant forall k :: 0 <= k <= i && (depth.None? || depth.value < k) ==> ContentAt(root, ns[..k]).routes == []
      invariant routes == if depth.Some? then ContentAt(root, ns[..depth.value]).routes else []
    {
      AtStep(root, ns[..i], ns[i]);
      assert ns[..i] + [ns[i]] == ns[..i + 1];
      AtContents(root, ns[..i + 1]);
      node := node.children[ns[i]];
      i := i + 1;
      if node.content.routes != [] {
        depth, routes := Some(i), node.content.routes;
      }
    }
    forall k | i < k <= |ns|
      ensures ContentAt(root, ns[..k]).routes == []
    {
      BeyondIsBare(root, ns, i, k);
    }
  }

  /** Every subscriber at ns or at a prefix of it, with the length of its prefix, once. */
  ghost predicate SubscribersOf(root: Node, ns: Namespace, n: nat, out: seq<(nat, Session, Info)>) {
    && (forall k: nat, s: Session, info: Info :: (k, s, info) in out <==>
          k < n <= |ns| + 1 && s in ContentAt(root, ns[..k]).subscribers && ContentAt(root, ns[..k]).subscribers[s] == info)
    && (forall i, j :: 0 <= i < j < |out| ==> out[i] != out[j])
  }

  method CollectSubscribers(root: Node, ns: Namespace) returns (out: seq<(nat, Session, Info)>)
    ensures SubscribersOf(root, ns, |ns| + 1, out)
  {
    var node := root;
    out := [];
    for i := 0 to |ns| + 1
      invariant i <= |ns| ==> node == At(root, ns[..i])
      invariant SubscribersOf(root, ns, i, out)
    {
      AtContents(root, ns[..i]);
      var own := OwnSubscribers(node.content.subscribers, i);
      out := out + own;
      if i < |ns| {
        AtStep(root, ns[..i], ns[i]);
        assert ns[..i] + [ns[i]] == ns[..i + 1];
        node := ChildOf(node, ns[i]);
      }
    }
  }

  method OwnSubscribers(subscribers: map<Session, Info>, depth: nat) returns (out: seq<(nat, Session, Info)>)
    ensures forall k: nat, s: Session, info: Info :: (k, s, info) in out <==>
              k == depth && s in subscribers && subscribers[s] == info
    ensures forall i, j :: 0 <= i < j < |out| ==> out[i] != out[j]
  {
    out := [];
    var pending := subscribers.Keys;
    while pending != {}
      invariant pending <= subscribers.Keys
      invariant forall k: nat, s: Session, info: Info :: (k, s, info) in out <==>
                  k == depth && s in subscribers && s !in pending && subscribers[s] == info
      invariant forall i, j :: 0 <= i < j < |out| ==> out[i] != out[j]
      decreases |pending|
    {
      var s :| s in pending;
      assert (depth, s, subscribers[s]) !in out;
      out := out + [(depth, s, subscribers[s])];
      pending := pending - {s};
    }
  }

  // --- Overlapping subscriptions ----------------------------------------------------------

  ghost predicate Subscribed(n: Node, session: Session, m: Namespace) {
    session in ContentAt(n, m).subscribers
  }

  method SubscribedBelow(n: Node, session: Session) returns (b: bool)
    ensures b <==> exists m :: Subscribed(n, session, m)
    decreases n
  {
    b := session in n.content.subscribers;
    if b {
      assert Subscribed(n, session, []);
      return;
    }
    forall m | m != [] && m[0] !in n.children
      ensures !Subscribed(n, session, m)
    {
      InactiveHasNothing(BARE, m[1..]);
    }
    var pending := n.children.Keys;
    while pending != {}
      invariant pending <= n.children.Keys
      invariant forall m :: m == [] || m[0] !in pending ==> !Subscribed(n, session, m)
      decreases |pending|
    {
      var key :| key in pending;
      b := SubscribedBelow(n.children[key], session);
      if b {
        ghost var m :| Subscribed(n.children[key], session, m);
        assert ([key] + m)[1..] == m;
        assert Subscribed(n, session, [key] + m);
        return;
      }
      forall m | m == [] || m[0] !in pending - {key}
        ensures !Subscribed(n, session, m)
      {
        if m != [] && m[0] == key {
          assert !Subscribed(n.children[key], session, m[1..]);
        }
      }
      pending := pending - {key};
    }
    forall m
      ensures !Subscribed(n, session, m)
    {
      assert m == [] || m[0] !in pending;
    }
  }

  lemma {:induction false} AtJoins(n: Node, ns: Namespace, m: Namespace)
    ensures ContentAt(At(n, ns), m) == ContentAt(n, ns + m)
    decreases |ns|
  {
    if ns == [] {
      assert ns + m == m;
    } else {
      assert (ns + m)[1..] == ns[1..] + m;
      AtJoins(ChildOf(n, ns[0]), ns[1..], m);
    }
  }

  /** The session holds an entry at the prefix, above it or below it. */
  method HasOverlappingTracksSubscription(root: Node, prefix: Namespace, session: Session) returns (b: bool)
    ensures b <==> exists m :: (m <= prefix || prefix <= m) && Subscribed(root, session, m)
  {
    var node := root;
    for i := 0 to |prefix|
      invariant node == At(root, prefix[..i])
      invariant forall k :: 0 <= k < i ==> !Subscribed(root, session, prefix[..k])
    {
      AtContents(root, prefix[..i]);
      if session in node.content.subscribers {
        assert prefix[..i] <= prefix && Subscribed(root, session, prefix[..i]);
        return true;
      }
      AtStep(root, prefix[..i], prefix[i]);
      assert prefix[..i] + [prefix[i]] == prefix[..i + 1];
      node := ChildOf(node, prefix[i]);
    }
    assert prefix[..|prefix|] == prefix;
    b := SubscribedBelow(node, session);
    if b {
      ghost var m :| Subscribed(node, session, m);
      AtJoins(root, prefix, m);
      assert prefix <= prefix + m && Subscribed(root, session, prefix + m);
    } else {
      forall m | m <= prefix || prefix <= m
        ensures !Subscribed(root, session, m)
      {
        if prefix <= m {
          AtJoins(root, prefix, m[|prefix|..]);
          assert prefix + m[|prefix|..] == m;
          assert !Subscribed(node, session, m[|prefix|..]);
        } else {
          assert m == prefix[..|m|];
        }
      }
    }
  }

  // --- The tree -----------------------------------------------------------------------------

  ghost predicate AllRoutesOk(root: Node, latest: nat) {
    forall ns :: RoutesOk(ContentAt(root, ns).routes, latest)
  }

  function Erasing(key: AdKey): AdChange {
    (routes: seq<Route>, ads: Ads) => ads - {key}
  }

  /** The key is gone at and below ns; all else that is advertised about namespaces with
      routes is as before. */
  ghost predicate AdsErased(before: Node, after: Node, ns: Namespace, key: AdKey) {
    forall m :: TidyAt(before, m) ==> AdsAt(after, m) == if ns <= m then AdsAt(before, m) - {key} else AdsAt(before, m)
  }

  lemma ErasedThenChanged(root: Node, ns: Namespace, key: AdKey, erased: Node, after: Node, content: Content)
    requires erased == MapAdsUnder(root, ns, Erasing(key)) && Changes(erased, after, ns, content)
    requires content.routes == ContentAt(root, ns).routes
    ensures Differs(root, after, ns, content) && AdsErased(root, after, ns, key)
  {
    hide MapAdsUnder;
    forall m
      ensures ContentAt(erased, m) == ContentAt(root, m)
      ensures AdsAt(erased, m) == if ns <= m then AdsAt(root, m) - {key} else AdsAt(root, m)
    {
      MapAdsUnderAt(root, ns, Erasing(key), m);
    }
    assert forall m :: TidyAt(root, m) ==> TidyAt(erased, m);
  }

  lemma RoutesStayOk(root: Node, after: Node, ns: Namespace, content: Content, latest: nat)
    requires AllRoutesOk(root, latest) && Differs(root, after, ns, content) && RoutesOk(content.routes, latest)
    ensures AllRoutesOk(after, latest)
  {
    hide RoutesOk;
  }

  class NamespaceTree {
    var root: Node
    var latest: nat

    ghost predicate Valid()
      reads this
    {
      Counted(root) && AllRoutesOk(root, latest)
    }

    constructor ()
      ensures Valid()
      ensures root == BARE && forall ns :: ContentAt(root, ns) == NOTHING
    {
      root := BARE;
      latest := 0;
      new;
      forall ns
        ensures ContentAt(root, ns) == NOTHING
      {
        InactiveHasNothing(root, ns);
      }
    }

    method AddPublish(ns: Namespace, track: Bytes, session: Session)
      returns (subscribers: seq<(nat, Session, Info)>)
      requires Valid()
      modifies this
      ensures Valid() && latest == old(latest)
      ensures SubscribersOf(old(root), ns, |ns| + 1, subscribers)
      ensures var c := ContentAt(old(root), ns);
              Changes(old(root), root, ns, c.(publishes := c.publishes[track := session]))
    {
      subscribers := CollectSubscribers(root, ns);
      var c := ContentAt(root, ns);
      root := Mutate(root, ns, c.(publishes := c.publishes[track := session]));
    }

    method UnpublishTrack(ns: Namespace, track: Bytes)
      requires Valid()
      modifies this
      ensures Valid() && latest == old(latest)
      ensures var c := ContentAt(old(root), ns); Changes(old(root), root, ns, c.(publishes := c.publishes - {track}))
    {
      var c := ContentAt(root, ns);
      root := Mutate(root, ns, c.(publishes := c.publishes - {track}));
    }

    /** An entry that is already there stays as it is. */
    method AddNamespaceSubscriber(ns: Namespace, session: Session, info: Info)
      requires Valid()
      modifies this
      ensures Valid() && latest == old(latest)
      ensures var c := ContentAt(old(root), ns);
              Changes(old(root), root, ns,
                      if session in c.subscribers then c else c.(subscribers := c.subscribers[session := info]))
    {
      var c := ContentAt(root, ns);
      root := Mutate(root, ns, if session in c.subscribers then c else c.(subscribers := c.subscribers[session := info]));
    }

    /** What the subscription was told is erased first, in the whole subtree. */
    method RemoveNamespaceSubscriber(ns: Namespace, session: Session) returns (found: bool)
      requires Valid()
      modifies this
      ensures Valid() && latest == old(latest)
      ensures found <==> session in ContentAt(old(root), ns).subscribers
      ensures !found ==> root == old(root)
      ensures found ==>
                && (var c := ContentAt(old(root), ns); Differs(old(root), root, ns, c.(subscribers := c.subscribers - {session})))
                && AdsErased(old(root), root, ns, (session, |ns|))
    {
      hide Counted, Differs, AdsKept, RoutesOk;
      var c := ContentAt(root, ns);
      found := session in c.subscribers;
      if found {
        var key := (session, |ns|);
        var erased := MapAdsUnder(root, ns, Erasing(key));
        MapAdsUnderCounted(root, ns, Erasing(key));
        var content := c.(subscribers := c.subscribers - {session});
        var after := Mutate(erased, ns, content);
        ErasedThenChanged(root, ns, key, erased, after, content);
        RoutesStayOk(root, after, ns, content, latest);
        root := after;
      }
    }

    /** Replaces what is advertised about a namespace. A node that was pruned can only
        be left without advertisements. */
    method SetAdvertisements(ns: Namespace, ads: Ads)
      requires Valid() && (ads != map[] ==> ContentAt(root, ns).Any())
      modifies this`root
      ensures Valid()
      ensures forall m :: ContentAt(root, m) == ContentAt(old(root), m)
      ensures forall m :: AdsAt(root, m) == if m == ns then ads else AdsAt(old(root), m)
    {
      hide Counted, RoutesOk;
      PutAdsCounted(root, ns, ads);
      if ads != map[] {
        ContentIsPresent(root, ns);
      }
      forall m
        ensures ContentAt(PutAds(root, ns, ads), m) == ContentAt(root, m)
        ensures AdsAt(PutAds(root, ns, ads), m) == if m == ns then ads else AdsAt(root, m)
      {
        PutAdsAt(root, ns, ads, m);
      }
      root := PutAds(root, ns, ads);
    }

    /** Lets every node under the prefix change its advertisements. */
    method ForEachNodeInSubtree(prefix: Namespace, f: AdChange)
      requires Valid()
      modifies this`root
      ensures Valid()
      ensures forall m :: ContentAt(root, m) == ContentAt(old(root), m)
      ensures forall m :: AdsAt(root, m) ==
                if prefix <= m then f(ContentAt(old(root), m).routes, AdsAt(old(root), m)) else AdsAt(old(root), m)
    {
      hide Counted, RoutesOk;
      MapAdsUnderCounted(root, prefix, f);
      forall m
        ensures ContentAt(MapAdsUnder(root, prefix, f), m) == ContentAt(root, m)
        ensures AdsAt(MapAdsUnder(root, prefix, f), m) ==
                if prefix <= m then f(ContentAt(root, m).routes, AdsAt(root, m)) else AdsAt(root, m)
      {
        MapAdsUnderAt(root, prefix, f, m);
      }
      root := MapAdsUnder(root, prefix, f);
    }

    method SetPublisher(ns: Namespace, announced: Route) returns (subscribers: seq<(nat, Session, Info)>)
      requires Valid() && announced.path != []
      modifies this
      ensures Valid()
      ensures SubscribersOf(old(root), ns, |ns| + 1, subscribers)
      ensures var c := ContentAt(old(root), ns);
              var (routes, latest') := Routes.SetPublisher(c.routes, announced, old(latest));
              latest == latest' && Changes(old(root), root, ns, c.(routes := routes))
    {
      subscribers := CollectSubscribers(root, ns);
      var c := ContentAt(root, ns);
      SetPublisherKeepsOk(c.routes, announced, latest);
      var (routes, latest') := Routes.SetPublisher(c.routes, announced, latest);
      root := Mutate(root, ns, c.(routes := routes));
      latest := latest';
    }

    method UpdateRoute(ns: Namespace, session: Session, requestID: nat, path: Path, cost: Cost)
      returns (found: bool, subscribers: seq<(nat, Session, Info)>)
      requires Valid() && path != []
      modifies this
      ensures Valid()
      ensures found <==> FindRoute(ContentAt(old(root), ns).routes, session, Some(requestID)).Some?
      ensures SubscribersOf(old(root), ns, |ns| + 1, subscribers)
      ensures !found ==> root == old(root) && latest == old(latest)
      ensures found ==>
                var c := ContentAt(old(root), ns);
                var i := FindRoute(c.routes, session, Some(requestID)).value;
                var (routes, latest') := Routes.UpdateRoute(c.routes, i, path, cost, old(latest));
                latest == latest' && Changes(old(root), root, ns, c.(routes := routes))
    {
      var c := ContentAt(root, ns);
      var i := FindRoute(c.routes, session, Some(requestID));
      subscribers := CollectSubscribers(root, ns);
      found := i.Some?;
      if found {
        UpdateKeepsOk(c.routes, i.value, c.routes[i.value].peerID, path, cost, latest);
        var (routes, latest') := Routes.UpdateRoute(c.routes, i.value, path, cost, latest);
        root := Mutate(root, ns, c.(routes := routes));
        latest := latest';
      }
    }

    method UnpublishNamespace(ns: Namespace, session: Session, requestID: Option<nat>)
      returns (removed: Option<Route>, subscribers: seq<(nat, Session, Info)>)
      requires Valid()
      modifies this
      ensures Valid() && latest == old(latest)
      ensures removed.Some? <==> FindRoute(ContentAt(old(root), ns).routes, session, requestID).Some?
      ensures SubscribersOf(old(root), ns, |ns| + 1, subscribers)
      ensures removed.None? ==> root == old(root)
      ensures removed.Some? ==>
                var c := ContentAt(old(root), ns);
                var i := FindRoute(c.routes, session, requestID).value;
                removed.value == c.routes[i] && Changes(old(root), root, ns, c.(routes := Erase(c.routes, i)))
    {
      var c := ContentAt(root, ns);
      var i := FindRoute(c.routes, session, requestID);
      subscribers := CollectSubscribers(root, ns);
      removed := None;
      if i.Some? {
        EraseKeepsOk(c.routes, i.value, latest);
        removed := Some(c.routes[i.value]);
        root := Mutate(root, ns, c.(routes := Erase(c.routes, i.value)));
      }
    }

    /** Only the longest prefix with a route is looked at: if none of its routes is
        usable, there is no answer. */
    method FindPublisherSession(ns: Namespace, exclusion: RouteExclusion)
      returns (session: Option<Session>, depth: Option<nat>, best: Option<Route>)
      requires Valid()
      ensures IsDeepest(root, ns, depth)
      ensures session == if best.Some? then Some(best.value.session) else None
      ensures depth.None? ==> best.None?
      ensures best.Some? ==>
                exclusion.session != Some(best.value.session) && (exclusion.hop == 0 || exclusion.hop !in best.value.path)
      ensures depth.Some? && best.None? ==>
                forall r :: r in ContentAt(root, ns[..depth.value]).routes ==>
                  exclusion.session == Some(r.session) || (exclusion.hop != 0 && exclusion.hop in r.path)
      ensures depth.Some? ==>
                var routes := ContentAt(root, ns[..depth.value]).routes;
                && (best.None? <==> forall r :: r in routes ==> !Usable(exclusion, r))
                && (best.Some? ==>
                      && best.value in routes && Usable(exclusion, best.value)
                      && (forall r :: r in routes && Usable(exclusion, r) && r != best.value ==> Better(best.value, r))
                      && (forall r :: r in routes && Usable(exclusion, r) ==> Leads(best.value, r)))
    {
      var routes;
      depth, routes := FindRouteNode(root, ns);
      session, best := None, None;
      if depth.Some? {
        best := SelectRoute(routes, UsableBy(exclusion));
        if best.Some? {
          session := Some(best.value.session);
        }
      }
    }
  }
}
