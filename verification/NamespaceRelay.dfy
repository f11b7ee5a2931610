/** The relay's side of the namespace protocol: it owns the namespace tree, keeps on each
    node what it has advertised about the node's namespace, and tells its subscribers. */
module NamespaceRelays {
  import opened Locations
  import opened HopPaths
  import opened Names
  import opened Routes
  import opened NamespaceTrees
  import opened Advertisements

  // --- Advertisements on the nodes --------------------------------------------------------

  /** The tree holds exactly the outstanding advertisements. In particular there is none
      about a namespace whose node is gone. */
  ghost predicate Stores(root: Node, views: Views) {
    forall ns :: StoresAt(AdsAt(root, ns), views, ns)
  }

  /** Only namespaces with a route are advertised. */
  lemma AdvertisedHasRoute(
    root: Node, routes: RouteTable, latest: nat, subs: Subscriptions, views: Views, local: nat, m: Namespace)
    requires Represents(root, routes, subs) && AllKeysOk(routes, latest, subs, views, local)
    requires StoresAt(AdsAt(root, m), views, m)
    ensures TidyAt(root, m)
  {
    if ContentAt(root, m).routes == [] {
      forall key: AdKey
        ensures key !in AdsAt(root, m)
      {
        var k := Key(m, key.0, key.1);
        assert KeyOk(routes, latest, subs, views, local, k);
        assert AdOf(AdsAt(root, m), (key.0, key.1)) == ViewAt(views, k).sent;
        if Live(subs, k) {
          NoRoutes(EligibleTo(k.session, subs[(k.session, k.ns[..k.depth])], local));
          assert RoutesAt(routes, m) == [];
        }
      }
      assert AdsAt(root, m) == map[];
    }
  }

  lemma AllTidy(root: Node, routes: RouteTable, latest: nat, subs: Subscriptions, views: Views, local: nat)
    requires Represents(root, routes, subs) && AllKeysOk(routes, latest, subs, views, local) && Stores(root, views)
    ensures forall m :: TidyAt(root, m)
  {
    hide Represents, AllKeysOk, TidyAt, StoresAt;
    forall m
      ensures TidyAt(root, m)
    {
      AdvertisedHasRoute(root, routes, latest, subs, views, local, m);
    }
  }

  /** A pruned node carries no outstanding advertisement: the node of a namespace that
      some subscription was told of, and not untold, is in the tree. */
  lemma AdvertisedIsPresent(
    root: Node, routes: RouteTable, latest: nat, subs: Subscriptions, views: Views, local: nat, k: Key)
    requires Represents(root, routes, subs) && AllKeysOk(routes, latest, subs, views, local) && Stores(root, views)
    requires Open(ViewAt(views, k).log)
    ensures Present(root, k.ns) && (k.session, k.depth) in AdsAt(root, k.ns)
  {
    assert KeyOk(routes, latest, subs, views, local, k);
    StoredAd(AdsAt(root, k.ns), views, k);
    AdvertisedHasRoute(root, routes, latest, subs, views, local, k.ns);
    ContentIsPresent(root, k.ns);
  }

  // --- What the operations do to the tree -----------------------------------------------------

  /** Storing the reconciled advertisements of one namespace. */
  lemma StoresAfterSettling(
    before: Node, after: Node, views: Views, told: Views, ns: Namespace, ads: Ads, content: Content,
    routes: RouteTable, subs: Subscriptions, local: nat)
    requires Stores(before, views) && (forall m :: TidyAt(before, m)) && AdsKept(before, after, ns, content)
    requires OnlyReconciled(routes, subs, views, local, told, KeysAt(ns, {})) && StoresAt(ads, told, ns)
    ensures forall m :: m != ns ==> StoresAt(AdsAt(after, m), told, m)
  {
    hide TidyAt;
    forall m | m != ns
      ensures StoresAt(AdsAt(after, m), told, m)
    {
      assert TidyAt(before, m) && StoresAt(AdsAt(before, m), views, m);
      forall s, d
        ensures AdOf(AdsAt(after, m), (s, d)) == ViewAt(told, Key(m, s, d)).sent
      {
        assert Key(m, s, d) !in KeysAt(ns, {});
      }
    }
  }

  /** Something is advertised only if a route is left. */
  lemma SettledHasRoute(
    routes: RouteTable, latest: nat, subs: Subscriptions, views: Views, local: nat, ns: Namespace, ads: Ads)
    requires AllKeysOk(routes, latest, subs, views, local) && StoresAt(ads, views, ns) && RoutesAt(routes, ns) == []
    ensures ads == map[]
  {
    forall key: AdKey
      ensures key !in ads
    {
      var k := Key(ns, key.0, key.1);
      assert KeyOk(routes, latest, subs, views, local, k);
      assert AdOf(ads, (key.0, key.1)) == ViewAt(views, k).sent;
      if Live(subs, k) {
        NoRoutes(EligibleTo(k.session, subs[(k.session, k.ns[..k.depth])], local));
      }
    }
  }

  /** What a node does when a new subscription is told of its namespace. */
  function Telling(session: Session, depth: nat, info: Info, local: nat): AdChange {
    hide SamePublisher, ParamsFor;
    NoRoutes(EligibleTo(session, info, local));
    (routes: seq<Route>, ads: Ads) => ToldAds(ads, routes, session, depth, info, local)
  }

  function ToldAds(ads: Ads, routes: seq<Route>, session: Session, depth: nat, info: Info, local: nat): Ads {
    var route := Best(routes, EligibleTo(session, info, local));
    if !info.handle || route.None? then ads
    else WithAd(ads, (session, depth), Reconcile(View(AdOf(ads, (session, depth)), []), route, session, local).sent)
  }

  lemma SentIgnoresLog(v: View, route: Option<Route>, subscriber: Session, local: nat)
    ensures Reconcile(v, route, subscriber, local).sent == Reconcile(View(v.sent, []), route, subscriber, local).sent
  {
  }

  /** Telling a new subscription on the nodes is reconciling its views. */
  lemma StoresAfterTelling(
    before: Node, after: Node, routes: RouteTable, subs: Subscriptions, views: Views, told: Views, local: nat,
    session: Session, prefix: Namespace)
    requires Represents(before, routes, subs) && Stores(before, views) && (session, prefix) in subs
    requires forall m :: AdsAt(after, m) ==
               if prefix <= m
               then ToldAds(AdsAt(before, m), ContentAt(before, m).routes, session, |prefix|, subs[(session, prefix)], local)
               else AdsAt(before, m)
    requires OnlyReconciled(routes, subs, views, local, told, KeysUnder(session, prefix, {}))
    requires forall k :: k in KeysUnder(session, prefix, {}) ==> k !in views
    ensures Stores(after, told)
  {
    hide Represents, Reconcile, Best;
    forall m, s, d
      ensures AdOf(AdsAt(after, m), (s, d)) == ViewAt(told, Key(m, s, d)).sent
    {
      var k := Key(m, s, d);
      StoredAd(AdsAt(before, m), views, k);
      ToldAt(before, after, routes, subs, views, told, local, session, prefix, k);
    }
  }

  lemma ToldAt(
    before: Node, after: Node, routes: RouteTable, subs: Subscriptions, views: Views, told: Views, local: nat,
    session: Session, prefix: Namespace, k: Key)
    requires Represents(before, routes, subs) && (session, prefix) in subs
    requires AdOf(AdsAt(before, k.ns), (k.session, k.depth)) == ViewAt(views, k).sent
    requires AdsAt(after, k.ns) ==
             if prefix <= k.ns
             then ToldAds(AdsAt(before, k.ns), ContentAt(before, k.ns).routes, session, |prefix|, subs[(session, prefix)], local)
             else AdsAt(before, k.ns)
    requires OnlyReconciled(routes, subs, views, local, told, KeysUnder(session, prefix, {}))
    requires k in KeysUnder(session, prefix, {}) ==> k !in views
    ensures AdOf(AdsAt(after, k.ns), (k.session, k.depth)) == ViewAt(told, k).sent
  {
    hide Best;
    if k in KeysUnder(session, prefix, {}) {
      assert k.ns[..k.depth] == prefix;
      SentIgnoresLog(ViewAt(views, k), Best(RoutesAt(routes, k.ns), EligibleTo(session, subs[(session, prefix)], local)), session, local);
    }
  }

  lemma StoresAfterErasing(before: Node, after: Node, views: Views, session: Session, prefix: Namespace)
    requires Stores(before, views) && (forall m :: TidyAt(before, m)) && AdsErased(before, after, prefix, (session, |prefix|))
    ensures Stores(after, Forget(views, session, prefix))
  {
    hide TidyAt;
    forall m, s, d
      ensures AdOf(AdsAt(after, m), (s, d)) == ViewAt(Forget(views, session, prefix), Key(m, s, d)).sent
    {
      assert TidyAt(before, m) && StoresAt(AdsAt(before, m), views, m);
      StoredAd(AdsAt(before, m), views, Key(m, s, d));
    }
  }

  lemma StoresKept(before: Node, after: Node, views: Views)
    requires Stores(before, views) && forall m :: AdsAt(after, m) == AdsAt(before, m)
    ensures Stores(after, views)
  {
    hide StoresAt;
  }

  // --- The relay ------------------------------------------------------------------------------

  /** The path and cost of an announcement; none if it ran through this relay. */
  function IngestRoute(session: Session, hopPath: Path, cost: Option<Cost>, local: nat): Option<(Path, Cost)> {
    if !session.cluster then Some(([ANON], session.linkCost))
    else if ClusterPathContains(hopPath, local) then None
    else Some((hopPath, if cost.Some? then ClusterAddCost(cost.value, session.linkCost) else session.linkCost))
  }

  /** The routes without the one session announced under requestID. */
  function Withdrawn(rs: seq<Route>, session: Session, requestID: Option<nat>): seq<Route> {
    var i := FindRoute(rs, session, requestID);
    if i.Some? then Erase(rs, i.value) else rs
  }

  /** Among rs, session has a route, and it has this path and cost. */
  ghost predicate Announced(rs: seq<Route>, session: Session, path: Path, cost: nat) {
    && (exists r :: r in rs && r.session == session)
    && (forall r :: r in rs && r.session == session ==> r.path == path && r.cost == cost)
  }

  /** What a session outside the cluster announces has passed nobody; a received cost
      grows by the link's, as far as costs go. */
  lemma AnnouncedRoute(
    rs: seq<Route>, latest: nat, session: Session, callback: bool, peerID: string, requestID: nat, hopPath: Path,
    cost: Option<Cost>, local: nat)
    requires RoutesOk(rs, latest)
    ensures IngestRoute(session, hopPath, cost, local).Some? <==> !(session.cluster && local != 0 && local in hopPath)
    ensures IngestRoute(session, hopPath, cost, local).Some? ==>
              var (path, cost') := IngestRoute(session, hopPath, cost, local).value;
              var after := SetPublisher(rs, Route(session, callback, peerID, requestID, path, cost', 0), latest).0;
              Announced(after, session, if session.cluster then hopPath else [0], AddedCost(session, cost))
  {
    if IngestRoute(session, hopPath, cost, local).Some? {
      var (path, cost') := IngestRoute(session, hopPath, cost, local).value;
      var announced := Route(session, callback, peerID, requestID, path, cost', 0);
      hide SetPublisher, RoutesOk;
      forall r: Route {
        SetPublisherMeans(rs, announced, latest, r);
      }
    }
  }

  /** The link's cost on top of a received one, not beyond the largest cost there is. */
  ghost function AddedCost(session: Session, cost: Option<Cost>): nat {
    var received := if session.cluster && cost.Some? then cost.value else 0;
    if received + session.linkCost <= MAX_COST then received + session.linkCost else MAX_COST
  }

  /** Exactly the route that session announced under requestID is missing. */
  lemma WithdrawnMeans(rs: seq<Route>, latest: nat, session: Session, requestID: Option<nat>, r: Route)
    requires RoutesOk(rs, latest)
    ensures r in Withdrawn(rs, session, requestID) <==>
            r in rs && !(r.session == session && (requestID == None || requestID == Some(r.requestID)))
  {
    var i := FindRoute(rs, session, requestID);
    if i.Some? {
      EraseKeepsOk(rs, i.value, latest);
      if r in rs && r.session == session {
        var k :| 0 <= k < |rs| && rs[k] == r;
        assert k == i.value || Coexist(rs[if k < i.value then k else i.value], rs[if k < i.value then i.value else k]);
      }
    }
  }

  class NamespaceRelay {
    const local: nat
    const allowedPrefix: Namespace
    const tree: NamespaceTree

    /** The tree's routes and subscriptions as flat maps, and what each subscription was
        told of each namespace. */
    ghost var routes: RouteTable
    ghost var subs: Subscriptions
    ghost var views: Views

    ghost predicate Valid()
      reads this, tree
    {
      && tree.Valid() && Represents(tree.root, routes, subs) && Stores(tree.root, views)
      && TableOk(routes, tree.latest) && AllKeysOk(routes, tree.latest, subs, views, local)
    }

    constructor (local: nat, allowedPrefix: Namespace)
      ensures Valid() && fresh(tree) && routes == map[] && subs == map[] && views == map[]
      ensures this.local == local && this.allowedPrefix == allowedPrefix
    {
      this.local := local;
      this.allowedPrefix := allowedPrefix;
      tree := new NamespaceTree();
      routes, subs, views := map[], map[], map[];
      new;
      forall ns
        ensures AdsAt(tree.root, ns) == map[]
      {
        BareHasNoAds(ns);
      }
    }

    /** Only the routes of ns changed, and every subscription over ns was reconciled. */
    ghost predicate Reannounced(before: RouteTable, told: Views, ns: Namespace, rs: seq<Route>)
      reads this
    {
      routes == before[ns := rs] && OnlyReconciled(routes, subs, told, local, views, KeysAt(ns, {}))
    }

    /** The routes of ns have changed in the tree; everyone concerned is told. The node
        may have been pruned meanwhile, with what was advertised on it. */
    method Settle(
      ns: Namespace, advertised: Ads, subscribers: seq<(nat, Session, Info)>, rs: seq<Route>,
      ghost before: Node, ghost latest: nat)
      requires Represents(before, routes, subs) && Stores(before, views)
      requires TableOk(routes, latest) && AllKeysOk(routes, latest, subs, views, local)
      requires tree.Valid() && Changes(before, tree.root, ns, ContentAt(before, ns).(routes := rs))
      requires RoutesOk(rs, tree.latest) && Evolves(RoutesAt(routes, ns), latest, rs, tree.latest)
      requires advertised == AdsAt(before, ns) && SubscribersOf(before, ns, |ns| + 1, subscribers)
      modifies this, tree`root
      ensures Valid() && subs == old(subs)
      ensures Reannounced(old(routes), old(views), ns, rs) && RoutesAt(routes, ns) == rs
    {
      hide TableOk, AllKeysOk, RoutesOk, Evolves, OnlyReconciled, Represents, Stores, StoresAt, Collected, SubscribersOf, Counted;
      hide TidyAt, AllRoutesOk, Differs, AdsKept;
      ghost var changed := routes[ns := rs];
      CollectedAreReconciled(before, routes, subs, ns, subscribers);
      StoresOf(before, views, ns);
      var ads, told := ReconcileSubscribers(rs, advertised, subscribers, local, ns, changed, tree.latest, subs, views);
      ChangeKeepsOk(routes, latest, subs, views, local, ns, rs, tree.latest, told);
      RoutesStayInStep(before, tree.root, routes, subs, ns, rs);
      AllTidy(before, routes, latest, subs, views, local);
      StoresAfterSettling(before, tree.root, views, told, ns, ads, ContentAt(before, ns).(routes := rs), changed, subs, local);
      assert ContentAt(tree.root, ns).routes == rs by {
        RoutesOf(tree.root, changed, subs, ns);
      }
      if rs == [] {
        SettledHasRoute(changed, tree.latest, subs, told, local, ns, ads);
      }
      ghost var mid := tree.root;
      tree.SetAdvertisements(ns, ads);
      SameContents(mid, tree.root, changed, subs);
      StoresAll(tree.root, told, ns);
      routes, views := changed, told;
    }

    method PublishNamespaceDone(ns: Namespace, session: Session, requestID: Option<nat>) returns (found: bool)
      requires Valid()
      modifies this, tree
      ensures Valid() && subs == old(subs) && tree.latest == old(tree.latest)
      ensures found <==> FindRoute(RoutesAt(old(routes), ns), session, requestID).Some?
      ensures found ==> Reannounced(old(routes), old(views), ns, Withdrawn(RoutesAt(old(routes), ns), session, requestID))
      ensures !found ==> routes == old(routes) && views == old(views)
      ensures forall r :: r in RoutesAt(routes, ns) <==>
                r in RoutesAt(old(routes), ns) && !(r.session == session && (requestID == None || requestID == Some(r.requestID)))
    {
      hide AllKeysOk, RoutesOk, Evolves, Reannounced, Represents, Stores, SubscribersOf, Counted, AllRoutesOk, Changes;
      ghost var before := tree.root;
      ghost var rs := RoutesAt(routes, ns);
      RoutesOf(before, routes, subs, ns);
      forall r: Route {
        WithdrawnMeans(rs, tree.latest, session, requestID, r);
      }
      var advertised := AdsAt(tree.root, ns);
      var removed, subscribers := tree.UnpublishNamespace(ns, session, requestID);
      found := removed.Some?;
      if found {
        ghost var i := FindRoute(rs, session, requestID).value;
        EraseKeepsOk(rs, i, tree.latest);
        assert Changes(before, tree.root, ns, ContentAt(before, ns).(routes := Erase(rs, i)));
        CurrentRoutes(before, tree.root, ns, Erase(rs, i));
        Settle(ns, advertised, subscribers, ContentAt(tree.root, ns).routes, before, tree.latest);
      }
    }

    /** A looped path is refused. If it came in a NAMESPACE, the sender's earlier route
        is withdrawn as well. */
    method PublishNamespace(
      ns: Namespace, session: Session, callback: bool, peerID: string, requestID: nat, hopPath: Path, cost: Option<Cost>)
      returns (accepted: bool)
      requires Valid() && (session.cluster ==> hopPath != [])
      modifies this, tree
      ensures Valid() && subs == old(subs)
      ensures accepted <==> IngestRoute(session, hopPath, cost, local).Some? && allowedPrefix <= ns
      ensures accepted <==> allowedPrefix <= ns && !(session.cluster && local != 0 && local in hopPath)
      ensures accepted ==>
                Announced(RoutesAt(routes, ns), session, if session.cluster then hopPath else [0], AddedCost(session, cost))
      ensures accepted ==>
                var (path, cost') := IngestRoute(session, hopPath, cost, local).value;
                var (rs, latest') := SetPublisher(
                  RoutesAt(old(routes), ns), Route(session, callback, peerID, requestID, path, cost', 0), old(tree.latest));
                tree.latest == latest' && Reannounced(old(routes), old(views), ns, rs)
      ensures !accepted ==> tree.latest == old(tree.latest)
      ensures !accepted ==>
                var rs := RoutesAt(old(routes), ns);
                if IngestRoute(session, hopPath, cost, local).None? && !callback && FindRoute(rs, session, None).Some?
                then Reannounced(old(routes), old(views), ns, Withdrawn(rs, session, None))
                else routes == old(routes) && views == old(views)
    {
      hide AllKeysOk, RoutesOk, Evolves, Reannounced, Represents, Stores, SubscribersOf, Counted, AllRoutesOk, Changes, SetPublisher;
      accepted := false;
      AnnouncedRoute(RoutesAt(routes, ns), tree.latest, session, callback, peerID, requestID, hopPath, cost, local);
      var ingested := IngestRoute(session, hopPath, cost, local);
      if ingested.None? {
        if !callback {
          var _ := PublishNamespaceDone(ns, session, None);
        }
        return;
      }
      if !(allowedPrefix <= ns) {
        return;
      }
      var (path, cost') := ingested.value;
      var announced := Route(session, callback, peerID, requestID, path, cost', 0);
      ghost var before, latest := tree.root, tree.latest;
      RoutesOf(before, routes, subs, ns);
      SetPublisherKeepsOk(RoutesAt(routes, ns), announced, latest);
      var advertised := AdsAt(tree.root, ns);
      var subscribers := tree.SetPublisher(ns, announced);
      CurrentRoutes(before, tree.root, ns, SetPublisher(RoutesAt(routes, ns), announced, latest).0);
      Settle(ns, advertised, subscribers, ContentAt(tree.root, ns).routes, before, latest);
      accepted := true;
    }

    /** A missing HOP_PATH or ROUTE_COST keeps what the route had. */
    method UpdatePublishNamespace(ns: Namespace, session: Session, requestID: nat, hopPath: Path, cost: Option<Cost>)
      returns (ok: bool)
      requires Valid() && (session.cluster || (hopPath == [] && cost.None?))
      modifies this, tree
      ensures Valid() && subs == old(subs)
      ensures var i := FindRoute(RoutesAt(old(routes), ns), session, Some(requestID));
              && (ok <==> i.Some? && !ClusterPathContains(hopPath, local))
              && (i.None? ==> routes == old(routes) && views == old(views) && tree.latest == old(tree.latest))
              && (i.Some? && !ok ==>
                    tree.latest == old(tree.latest) &&
                    Reannounced(old(routes), old(views), ns, Withdrawn(RoutesAt(old(routes), ns), session, Some(requestID))))
      ensures ok ==>
                var rs := RoutesAt(old(routes), ns);
                var i := FindRoute(rs, session, Some(requestID)).value;
                var path := if hopPath == [] then rs[i].path else hopPath;
                var cost' := if cost.Some? then ClusterAddCost(cost.value, session.linkCost) else rs[i].cost;
                var (after, latest') := UpdateRoute(rs, i, path, cost', old(tree.latest));
                tree.latest == latest' && Reannounced(old(routes), old(views), ns, after)
    {
      hide AllKeysOk, Evolves, Reannounced, Represents, Stores, SubscribersOf, Counted, Changes;
      ok := false;
      ghost var before, latest := tree.root, tree.latest;
      RoutesOf(before, routes, subs, ns);
      var rs := ContentAt(tree.root, ns).routes;
      var found := FindRoute(rs, session, Some(requestID));
      if found.None? {
        return;
      }
      if ClusterPathContains(hopPath, local) {
        var _ := PublishNamespaceDone(ns, session, Some(requestID));
        return;
      }
      var i := found.value;
      var path := if hopPath == [] then rs[i].path else hopPath;
      var cost' := if cost.Some? then ClusterAddCost(cost.value, session.linkCost) else rs[i].cost;
      assert RouteOk(rs[i], latest);
      UpdateKeepsOk(rs, i, rs[i].peerID, path, cost', latest);
      var advertised := AdsAt(tree.root, ns);
      var _, subscribers := tree.UpdateRoute(ns, session, requestID, path, cost');
      CurrentRoutes(before, tree.root, ns, UpdateRoute(rs, i, path, cost', latest).0);
      Settle(ns, advertised, subscribers, ContentAt(tree.root, ns).routes, before, latest);
      ok := true;
    }

    /** The match limit is not modelled: tooLarge says whether it was exceeded. */
    method SubscribeNamespace(session: Session, prefix: Namespace, info: Info, tooLarge: bool) returns (ok: bool)
      requires Valid() && (session, prefix) !in subs
      modifies this, tree
      ensures Valid() && routes == old(routes) && tree.latest == old(tree.latest) && ok == !tooLarge
      ensures ok ==> subs == old(subs)[(session, prefix) := info]
      ensures ok ==> OnlyReconciled(routes, subs, old(views), local, views, KeysUnder(session, prefix, {}))
      ensures !ok ==> subs == old(subs) && views == old(views)
    {
      hide TableOk, AllKeysOk, OnlyReconciled, Represents, Stores, Counted, AllRoutesOk, TidyAt, Differs, AdsKept;
      ok := !tooLarge;
      if !ok {
        return;
      }
      ghost var before := tree.root;
      ghost var added := subs[(session, prefix) := info];
      NoneTold(routes, tree.latest, subs, views, local, session, prefix);
      ghost var told := ViewsAfterTelling(routes, tree.latest, added, views, local, session, prefix);
      SubscribeKeepsOk(routes, tree.latest, subs, views, local, session, prefix, info, told);
      AllTidy(before, routes, tree.latest, subs, views, local);
      SubscribedInTree(before, routes, subs, session, prefix);
      tree.AddNamespaceSubscriber(prefix, session, info);
      ghost var mid := tree.root;
      SubscribersStayInStep(before, mid, routes, subs, prefix, session, info);
      SubscriberAdsKept(before, mid, prefix, session, info);
      StoresKept(before, mid, views);
      tree.ForEachNodeInSubtree(prefix, Telling(session, |prefix|, info, local));
      StoresAfterTelling(mid, tree.root, routes, added, views, told, local, session, prefix);
      SameContents(mid, tree.root, routes, added);
      subs, views := added, told;
    }

    /** Ends a subscription: its views vanish, without a message. */
    method UnsubscribeNamespace(session: Session, prefix: Namespace)
      requires Valid()
      modifies this, tree
      ensures Valid() && routes == old(routes) && tree.latest == old(tree.latest)
      ensures subs == old(subs) - {(session, prefix)}
      ensures views == Forget(old(views), session, prefix)
    {
      hide TableOk, AllKeysOk, Represents, Stores, Counted, AllRoutesOk, TidyAt, Differs, AdsErased;
      ghost var before := tree.root;
      AllTidy(before, routes, tree.latest, subs, views, local);
      SubscribedInTree(before, routes, subs, session, prefix);
      var found := tree.RemoveNamespaceSubscriber(prefix, session);
      if found {
        UnsubscribeKeepsOk(routes, tree.latest, subs, views, local, session, prefix);
        UnsubscribedStayInStep(before, tree.root, routes, subs, prefix, session);
        StoresAfterErasing(before, tree.root, views, session, prefix);
        views := Forget(views, session, prefix);
        subs := subs - {(session, prefix)};
      } else {
        NoneTold(routes, tree.latest, subs, views, local, session, prefix);
        assert Forget(views, session, prefix) == views;
        assert subs - {(session, prefix)} == subs;
      }
    }
  }

  lemma CurrentRoutes(before: Node, after: Node, ns: Namespace, rs: seq<Route>)
    requires Changes(before, after, ns, ContentAt(before, ns).(routes := rs))
    ensures ContentAt(after, ns).routes == rs
  {
  }

  lemma SubscribedInTree(root: Node, routes: RouteTable, subs: Subscriptions, session: Session, prefix: Namespace)
    requires Represents(root, routes, subs)
    ensures session in ContentAt(root, prefix).subscribers <==> (session, prefix) in subs
  {
  }

  lemma SubscriberAdsKept(before: Node, after: Node, ns: Namespace, session: Session, info: Info)
    requires var c := ContentAt(before, ns); AdsKept(before, after, ns, c.(subscribers := c.subscribers[session := info]))
    requires forall m :: TidyAt(before, m)
    ensures forall m :: AdsAt(after, m) == AdsAt(before, m)
  {
    hide TidyAt;
    var c := ContentAt(before, ns);
    assert session in c.subscribers[session := info];
  }

  lemma StoresOf(root: Node, views: Views, ns: Namespace)
    requires Stores(root, views)
    ensures StoresAt(AdsAt(root, ns), views, ns)
  {
  }

  lemma StoresAll(root: Node, views: Views, ns: Namespace)
    requires StoresAt(AdsAt(root, ns), views, ns) && forall m :: m != ns ==> StoresAt(AdsAt(root, m), views, m)
    ensures Stores(root, views)
  {
  }

  lemma RoutesOf(root: Node, routes: RouteTable, subs: Subscriptions, ns: Namespace)
    requires Represents(root, routes, subs)
    ensures ContentAt(root, ns).routes == RoutesAt(routes, ns)
  {
  }

  lemma SameContents(before: Node, after: Node, routes: RouteTable, subs: Subscriptions)
    requires Represents(before, routes, subs) && forall m :: ContentAt(after, m) == ContentAt(before, m)
    ensures Represents(after, routes, subs)
  {
  }
}
