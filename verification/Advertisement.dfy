/** What the relay tells the subscribers of a namespace prefix. The namespaces are a
    flat map here, which NamespaceTrees shows the tree to be. */
module Advertisements {
  import opened Locations
  import opened HopPaths
  import opened Names
  import opened Routes
  import opened NamespaceTrees

  // --- What one subscription is told about one namespace ----------------------------

  /** HOP_PATH and ROUTE_COST. */
  datatype Params = Params(path: Path, cost: Cost)

  datatype Msg = Told(params: Option<Params>) | Done

  datatype View = View(sent: Option<Ad>, log: seq<Msg>)

  const UNTOLD := View(None, [])

  /** Whether the subscriber may be told of the route. */
  predicate Eligible(r: Route, subscriber: Session, info: Info, local: nat) {
    && (info.peerID == "" || r.peerID != info.peerID)
    && subscriber != r.session
    && (info.options.NAMESPACE? || info.options.BOTH?)
    && MayAdvertise(r.path, subscriber.peerHop, local)
  }

  /** Nobody is told of its own namespace, nor of a path that it is on, nor of
      what its own relay published; and only who asked for namespaces is told of any. */
  ghost predicate MayHear(r: Route, subscriber: Session, info: Info, local: nat) {
    && r.session != subscriber
    && (subscriber.peerHop != 0 ==> subscriber.peerHop !in r.path && subscriber.peerHop != local)
    && (info.peerID != "" ==> info.peerID != r.peerID)
    && (info.options == NAMESPACE || info.options == BOTH)
  }

  lemma EligibleMayHear(r: Route, subscriber: Session, info: Info, local: nat)
    ensures Eligible(r, subscriber, info, local) <==> MayHear(r, subscriber, info, local)
  {
  }

  function EligibleTo(subscriber: Session, info: Info, local: nat): Route -> bool {
    r => Eligible(r, subscriber, info, local)
  }

  /** Only subscribers in the cluster get cluster parameters. */
  function ParamsFor(subscriber: Session, path: Path, cost: Cost, local: nat): Option<Params> {
    if subscriber.cluster then Some(Params(Outgoing(path, local), cost)) else None
  }

  /** The same generation, or the same origin unless it is anonymous. */
  predicate SamePublisher(sent: Ad, r: Route) {
    sent.generation == r.generation || (SameOrigin(sent.path, r.path) && sent.path[0] != ANON)
  }

  /** Withdraws what was told if the publisher is another one, and tells what is new. */
  function Reconcile(v: View, route: Option<Route>, subscriber: Session, local: nat): View {
    var w := if v.sent.Some? && (route.None? || !SamePublisher(v.sent.value, route.value))
             then View(None, v.log + [Done])
             else v;
    if route.None? then w
    else
      var r := route.value;
      if w.sent.Some? && (!subscriber.cluster || (w.sent.value.path == r.path && w.sent.value.cost == r.cost)) then w
      else View(Some(Ad(r.generation, r.path, r.cost)), w.log + [Told(ParamsFor(subscriber, r.path, r.cost, local))])
  }

  /** The same as code: what is then advertised, and the messages sent. */
  method ReconcileAdvertisement(routes: seq<Route>, advertised: Option<Ad>, subscriber: Session, info: Info, local: nat)
    returns (sent: Option<Ad>, msgs: seq<Msg>)
    requires DistinctGenerations(routes)
    ensures !info.handle ==> sent == advertised && msgs == []
    ensures info.handle ==>
              forall log ::
                Reconcile(View(advertised, log), Best(routes, EligibleTo(subscriber, info, local)), subscriber, local) ==
                View(sent, log + msgs)
  {
    hide Best;
    sent, msgs := advertised, [];
    if !info.handle {
      return;
    }
    assert forall log: seq<Msg> :: log + msgs == log;
    var route := SelectRoute(routes, EligibleTo(subscriber, info, local));
    if sent.Some? && (route.None? || !SamePublisher(sent.value, route.value)) {
      msgs := [Done];
      sent := None;
    }
    if route.None? {
      return;
    }
    var r := route.value;
    if sent.Some? && (!subscriber.cluster || (sent.value.path == r.path && sent.value.cost == r.cost)) {
      return;
    }
    var told := Told(ParamsFor(subscriber, r.path, r.cost, local));
    assert forall log :: (log + msgs) + [told] == log + (msgs + [told]);
    msgs := msgs + [told];
    sent := Some(Ad(r.generation, r.path, r.cost));
  }

  // --- Well-formed traces -------------------------------------------------------------

  predicate Open(log: seq<Msg>) {
    log != [] && log[|log| - 1].Told?
  }

  ghost predicate TellsSameOrigin(a: Msg, b: Msg) {
    a.Told? && b.Told? && a.params.Some? && b.params.Some? && SameOrigin(a.params.value.path, b.params.value.path)
  }

  /** NAMESPACE_DONE only follows a NAMESPACE. A NAMESPACE that is repeated before it
      is withdrawn has cluster parameters and the same origin. */
  ghost predicate FitsAt(log: seq<Msg>, i: nat)
    requires i < |log|
  {
    && (log[i].Done? ==> i > 0 && log[i - 1].Told?)
    && (log[i].Told? && i > 0 && log[i - 1].Told? ==> TellsSameOrigin(log[i - 1], log[i]))
  }

  ghost predicate TraceOk(log: seq<Msg>) {
    forall i :: 0 <= i < |log| ==> FitsAt(log, i)
  }

  /** Between a NAMESPACE and its withdrawal the origin never changes. */
  lemma {:induction false} OriginIsConstant(log: seq<Msg>, i: nat, j: nat)
    requires TraceOk(log) && i < j < |log| && forall k :: i <= k <= j ==> log[k].Told?
    ensures TellsSameOrigin(log[i], log[j])
    decreases j
  {
    assert FitsAt(log, j);
    if i < j - 1 {
      OriginIsConstant(log, i, j - 1);
    }
  }

  lemma TraceExtends(log: seq<Msg>, msg: Msg)
    requires TraceOk(log)
    requires msg.Done? ==> Open(log)
    requires msg.Told? && Open(log) ==> TellsSameOrigin(log[|log| - 1], msg)
    ensures TraceOk(log + [msg])
  {
    var after := log + [msg];
    forall i | 0 <= i < |after|
      ensures FitsAt(after, i)
    {
      assert i < |log| ==> FitsAt(log, i);
    }
  }

  // --- What every view keeps ------------------------------------------------------------

  /** The trace is well formed, is open exactly while something is advertised, and
      ends in what is advertised. */
  ghost predicate ViewOk(v: View, subscriber: Session, local: nat) {
    && TraceOk(v.log)
    && (v.sent.Some? <==> Open(v.log))
    && (v.sent.Some? ==>
          v.sent.value.path != [] &&
          v.log[|v.log| - 1].params == ParamsFor(subscriber, v.sent.value.path, v.sent.value.cost, local))
  }

  /** A route of the advertised generation has the advertised origin. */
  ghost predicate Knows(v: View, routes: seq<Route>, latest: nat) {
    v.sent.Some? ==>
      && v.sent.value.generation <= latest
      && forall r :: r in routes && r.generation == v.sent.value.generation ==> Origin(r.path) == Origin(v.sent.value.path)
  }

  /** Something is advertised exactly when there is a route to advertise, and it is
      that route: to a cluster subscriber path and cost, to any the origin. */
  ghost predicate Settled(v: View, route: Option<Route>, subscriber: Session) {
    && (v.sent.Some? <==> route.Some?)
    && (route.Some? ==> Origin(v.sent.value.path) == Origin(route.value.path))
    && (route.Some? && subscriber.cluster ==> v.sent.value.path == route.value.path && v.sent.value.cost == route.value.cost)
  }

  lemma KnowsEvolves(v: View, routes: seq<Route>, latest: nat, after: seq<Route>, latest': nat)
    requires Knows(v, routes, latest) && Evolves(routes, latest, after, latest')
    ensures Knows(v, after, latest')
  {
    if v.sent.Some? {
      forall r | r in after && r.generation == v.sent.value.generation
        ensures Origin(r.path) == Origin(v.sent.value.path)
      {
        assert HasRoute(routes, r.generation, Origin(r.path));
      }
    }
  }

  /** Reconciling settles the view, whatever was told before. */
  lemma ReconcileSettles(v: View, routes: seq<Route>, latest: nat, route: Option<Route>, subscriber: Session, local: nat)
    requires ViewOk(v, subscriber, local) && Knows(v, routes, latest) && RoutesOk(routes, latest)
    requires route.Some? ==> route.value in routes
    ensures var after := Reconcile(v, route, subscriber, local);
            && ViewOk(after, subscriber, local) && Knows(after, routes, latest) && Settled(after, route, subscriber)
            && v.log <= after.log
  {
    var withdrawn := v.sent.Some? && (route.None? || !SamePublisher(v.sent.value, route.value));
    var w := if withdrawn then View(None, v.log + [Done]) else v;
    if withdrawn {
      TraceExtends(v.log, Done);
    }
    if route.Some? {
      var r := route.value;
      assert RouteOk(r, latest);
      var msg := Told(ParamsFor(subscriber, r.path, r.cost, local));
      if w.sent.Some? {
        assert Origin(r.path) == Origin(w.sent.value.path);
        if subscriber.cluster {
          assert Outgoing(r.path, local)[0] == r.path[0];
          TraceExtends(w.log, msg);
        }
      } else {
        TraceExtends(w.log, msg);
      }
      OneGeneration(routes, latest, r);
    }
  }

  /** Whoever was told of a publisher is told that it is done exactly when there is no
      route any more, or the route is of another generation and cannot be known to lead
      to the same origin. It is told anew when it knows nothing, and in the cluster also
      when path or cost are others. */
  lemma ReconcileSends(v: View, route: Option<Route>, subscriber: Session, local: nat)
    requires (v.sent.Some? ==> v.sent.value.path != []) && (route.Some? ==> route.value.path != [])
    ensures var after := Reconcile(v, route, subscriber, local);
            var gone := v.sent.Some? &&
              (route.None? ||
               (v.sent.value.generation != route.value.generation &&
                (v.sent.value.path[0] != route.value.path[0] || route.value.path[0] == 0)));
            var news := route.Some? &&
              (gone || v.sent.None? ||
               (subscriber.cluster && (v.sent.value.path != route.value.path || v.sent.value.cost != route.value.cost)));
            && after.log == v.log + (if gone then [Done] else []) +
                 (if !news then []
                  else if subscriber.cluster then [Told(Some(Params(route.value.path + [local], route.value.cost)))]
                  else [Told(None)])
            && (news ==> after.sent == Some(Ad(route.value.generation, route.value.path, route.value.cost)))
            && (!news ==> after.sent == if gone then None else v.sent)
  {
  }

  lemma OneGeneration(routes: seq<Route>, latest: nat, r: Route)
    requires RoutesOk(routes, latest) && r in routes
    ensures forall x :: x in routes && x.generation == r.generation ==> x == r
  {
    var i :| 0 <= i < |routes| && routes[i] == r;
    forall x | x in routes && x.generation == r.generation
      ensures x == r
    {
      var j :| 0 <= j < |routes| && routes[j] == x;
      assert if i < j then Coexist(routes[i], routes[j]) else j < i ==> Coexist(routes[j], routes[i]);
    }
  }

  // --- The whole relay --------------------------------------------------------------------

  /** Which subscription, over which namespace. The prefix is given by its length,
      since it is a prefix of ns. */
  datatype Key = Key(ns: Namespace, session: Session, depth: nat)

  type RouteTable = map<Namespace, seq<Route>>
  type Subscriptions = map<(Session, Namespace), Info>
  type Views = map<Key, View>

  function RoutesAt(routes: RouteTable, ns: Namespace): seq<Route> {
    if ns in routes then routes[ns] else []
  }

  function ViewAt(views: Views, k: Key): View {
    if k in views then views[k] else UNTOLD
  }

  /** There is a subscription that is told of the namespace. */
  predicate Live(subs: Subscriptions, k: Key) {
    k.depth <= |k.ns| && (k.session, k.ns[..k.depth]) in subs && subs[(k.session, k.ns[..k.depth])].handle
  }

  function RouteFor(routes: RouteTable, subs: Subscriptions, local: nat, k: Key): Option<Route>
    requires Live(subs, k)
  {
    Best(RoutesAt(routes, k.ns), EligibleTo(k.session, subs[(k.session, k.ns[..k.depth])], local))
  }

  ghost predicate TableOk(routes: RouteTable, latest: nat) {
    forall ns :: RoutesOk(RoutesAt(routes, ns), latest)
  }

  /** Holds even between a change of the routes and the reconciliation. */
  ghost predicate KeySound(routes: RouteTable, latest: nat, subs: Subscriptions, views: Views, local: nat, k: Key) {
    if Live(subs, k)
    then ViewOk(ViewAt(views, k), k.session, local) && Knows(ViewAt(views, k), RoutesAt(routes, k.ns), latest)
    else k !in views
  }

  ghost predicate KeyOk(routes: RouteTable, latest: nat, subs: Subscriptions, views: Views, local: nat, k: Key) {
    && KeySound(routes, latest, subs, views, local, k)
    && (Live(subs, k) ==> Settled(ViewAt(views, k), RouteFor(routes, subs, local, k), k.session))
  }

  /** What a reconciliation of k leaves. */
  ghost function Reconciled(routes: RouteTable, subs: Subscriptions, views: Views, local: nat, k: Key): View {
    if Live(subs, k) then Reconcile(ViewAt(views, k), RouteFor(routes, subs, local, k), k.session, local)
    else ViewAt(views, k)
  }

  /** after is views with exactly the keys in which reconciled. */
  ghost predicate OnlyReconciled(
    routes: RouteTable, subs: Subscriptions, views: Views, local: nat, after: Views, which: iset<Key>)
  {
    && (forall k :: ViewAt(after, k) == if k in which then Reconciled(routes, subs, views, local, k) else ViewAt(views, k))
    && (forall k :: k in after ==> k in views || Live(subs, k))
  }

  lemma ReconciledIsOk(routes: RouteTable, latest: nat, subs: Subscriptions, views: Views, local: nat, after: Views, k: Key)
    requires TableOk(routes, latest) && KeySound(routes, latest, subs, views, local, k)
    requires ViewAt(after, k) == Reconciled(routes, subs, views, local, k)
    requires k in after ==> k in views || Live(subs, k)
    ensures KeyOk(routes, latest, subs, after, local, k)
  {
    if Live(subs, k) {
      var rs := RoutesAt(routes, k.ns);
      var eligible := EligibleTo(k.session, subs[(k.session, k.ns[..k.depth])], local);
      BestIsBest(rs, eligible);
      ReconcileSettles(ViewAt(views, k), rs, latest, Best(rs, eligible), k.session, local);
    }
  }

  /** One more key is reconciled; a key without a live subscription already is. */
  lemma OneMoreReconciled(
    routes: RouteTable, subs: Subscriptions, views: Views, local: nat, after: Views, which: iset<Key>, k: Key)
    requires OnlyReconciled(routes, subs, views, local, after, which) && k !in which
    ensures Live(subs, k) ==>
              var v := Reconcile(ViewAt(after, k), RouteFor(routes, subs, local, k), k.session, local);
              OnlyReconciled(routes, subs, views, local, after[k := v], which + iset{k})
    ensures !Live(subs, k) ==> OnlyReconciled(routes, subs, views, local, after, which + iset{k})
  {
    hide Live, Reconcile, RouteFor;
  }

  /** The keys of ns whose subscription is not pending. */
  ghost function KeysAt(ns: Namespace, pending: set<(Session, Namespace)>): iset<Key> {
    iset k: Key | k.ns == ns && (k.depth <= |ns| ==> (k.session, ns[..k.depth]) !in pending)
  }

  lemma NoneReconciled(
    routes: RouteTable, subs: Subscriptions, views: Views, local: nat, which: iset<Key>)
    requires forall k :: k in which ==> Reconciled(routes, subs, views, local, k) == ViewAt(views, k)
    ensures OnlyReconciled(routes, subs, views, local, views, which)
  {
  }

  function AdOf(ads: Ads, key: AdKey): Option<Ad> {
    if key in ads then Some(ads[key]) else None
  }

  function WithAd(ads: Ads, key: AdKey, ad: Option<Ad>): Ads {
    if ad.Some? then ads[key := ad.value] else ads - {key}
  }

  /** A node's advertisements are what the views of its namespace say. */
  ghost predicate StoresAt(ads: Ads, views: Views, ns: Namespace) {
    forall s, d :: AdOf(ads, (s, d)) == ViewAt(views, Key(ns, s, d)).sent
  }

  /** Exactly the subscriptions over ns, each once. */
  ghost predicate Collected(subs: Subscriptions, ns: Namespace, out: seq<(nat, Session, Info)>) {
    && (forall i :: 0 <= i < |out| ==>
          out[i].0 <= |ns| && (out[i].1, ns[..out[i].0]) in subs && subs[(out[i].1, ns[..out[i].0])] == out[i].2)
    && (forall sub :: sub in subs && sub.1 <= ns ==> (|sub.1|, sub.0, subs[sub]) in out)
    && (forall i, j :: 0 <= i < j < |out| ==> out[i] != out[j])
  }

  /** The subscription behind an entry. */
  function SubOf(ns: Namespace, e: (nat, Session, Info)): (Session, Namespace)
    requires e.0 <= |ns|
  {
    (e.1, ns[..e.0])
  }

  ghost function StillPending(ns: Namespace, out: seq<(nat, Session, Info)>, i: nat): set<(Session, Namespace)>
    requires i <= |out| && forall j :: 0 <= j < |out| ==> out[j].0 <= |ns|
  {
    set j | i <= j < |out| :: SubOf(ns, out[j])
  }

  lemma NextPending(subs: Subscriptions, ns: Namespace, out: seq<(nat, Session, Info)>, i: nat)
    requires Collected(subs, ns, out) && i < |out|
    ensures SubOf(ns, out[i]) in StillPending(ns, out, i)
    ensures StillPending(ns, out, i + 1) == StillPending(ns, out, i) - {SubOf(ns, out[i])}
  {
    forall j | i < j < |out|
      ensures SubOf(ns, out[j]) != SubOf(ns, out[i])
    {
      var a, b := out[i], out[j];
      assert |SubOf(ns, a).1| == a.0 && |SubOf(ns, b).1| == b.0;
      assert SubOf(ns, a) == SubOf(ns, b) ==> a == b;
    }
  }

  lemma AllPending(routes: RouteTable, subs: Subscriptions, views: Views, local: nat, ns: Namespace, out: seq<(nat, Session, Info)>)
    requires Collected(subs, ns, out)
    ensures OnlyReconciled(routes, subs, views, local, views, KeysAt(ns, StillPending(ns, out, 0)))
  {
    hide OnlyReconciled;
    var pending := StillPending(ns, out, 0);
    forall k: Key | k.ns == ns && Live(subs, k)
      ensures k !in KeysAt(ns, pending)
    {
      var sub := (k.session, ns[..k.depth]);
      var j :| 0 <= j < |out| && out[j] == (|sub.1|, sub.0, subs[sub]);
      assert SubOf(ns, out[j]) == sub && sub in pending;
    }
    NoneReconciled(routes, subs, views, local, KeysAt(ns, pending));
  }

  /** A subscription over ns is advertised to exactly when it has a route, and then with
      that route's path and cost if it is from the cluster; no other advertisement changes. */
  ghost predicate OnlyRoutesAdvertised(
    routes: RouteTable, subs: Subscriptions, local: nat, ns: Namespace, before: Ads, ads: Ads)
  {
    forall s, d ::
      var k := Key(ns, s, d);
      var ad := AdOf(ads, (s, d));
      if Live(subs, k) then
        var route := RouteFor(routes, subs, local, k);
        && (ad.Some? <==> route.Some?)
        && (ad.Some? && s.cluster ==> ad.value.path == route.value.path && ad.value.cost == route.value.cost)
      else ad == AdOf(before, (s, d))
  }

  lemma AdsAfterReconciling(
    routes: RouteTable, subs: Subscriptions, local: nat, ns: Namespace, before: Ads, views: Views, ads: Ads, after: Views)
    requires StoresAt(before, views, ns) && StoresAt(ads, after, ns)
    requires OnlyReconciled(routes, subs, views, local, after, KeysAt(ns, {}))
    ensures OnlyRoutesAdvertised(routes, subs, local, ns, before, ads)
  {
    hide Best, SamePublisher, ParamsFor;
    forall k: Key | k.ns == ns
      ensures AdOf(ads, (k.session, k.depth)) == Reconciled(routes, subs, views, local, k).sent
    {
      assert k in KeysAt(ns, {}) && k == Key(ns, k.session, k.depth);
    }
  }

  /** Reconciles every subscription over ns with the routes of ns. What is advertised is
      on the node; the views are told the messages. */
  method ReconcileSubscribers(
    rs: seq<Route>, advertised: Ads, subscribers: seq<(nat, Session, Info)>, local: nat, ns: Namespace,
    ghost routes: RouteTable, ghost latest: nat, ghost subs: Subscriptions, ghost views: Views)
    returns (ads: Ads, ghost after: Views)
    requires RoutesAt(routes, ns) == rs && RoutesOk(rs, latest)
    requires Collected(subs, ns, subscribers) && StoresAt(advertised, views, ns)
    ensures OnlyReconciled(routes, subs, views, local, after, KeysAt(ns, {}))
    ensures StoresAt(ads, after, ns)
    ensures OnlyRoutesAdvertised(routes, subs, local, ns, advertised, ads)
  {
    hide Reconcile, RoutesOk, Best, OnlyReconciled, StoresAt, KeysAt, StillPending, OnlyRoutesAdvertised;
    ads, after := advertised, views;
    GenerationsDiffer(rs, latest);
    AllPending(routes, subs, views, local, ns, subscribers);
    for i := 0 to |subscribers|
      invariant OnlyReconciled(routes, subs, views, local, after, KeysAt(ns, StillPending(ns, subscribers, i)))
      invariant StoresAt(ads, after, ns)
    {
      var (depth, session, info) := subscribers[i];
      ghost var k := Key(ns, session, depth);
      NextPending(subs, ns, subscribers, i);
      ghost var pending := StillPending(ns, subscribers, i);
      OnePending(ns, pending, SubOf(ns, subscribers[i]));
      OneMoreReconciled(routes, subs, views, local, after, KeysAt(ns, pending), k);
      StoredAd(ads, after, k);
      var sent, msgs := ReconcileAdvertisement(rs, AdOf(ads, (session, depth)), session, info, local);
      if info.handle {
        StoresOneMore(ads, after, k, View(sent, ViewAt(after, k).log + msgs));
        ads := WithAd(ads, (session, depth), sent);
        after := after[k := View(sent, ViewAt(after, k).log + msgs)];
      }
    }
    NonePending(ns, subscribers);
    AdsAfterReconciling(routes, subs, local, ns, advertised, views, ads, after);
  }

  lemma NonePending(ns: Namespace, out: seq<(nat, Session, Info)>)
    requires forall j :: 0 <= j < |out| ==> out[j].0 <= |ns|
    ensures StillPending(ns, out, |out|) == {}
  {
  }

  lemma StoredAd(ads: Ads, views: Views, k: Key)
    requires StoresAt(ads, views, k.ns)
    ensures AdOf(ads, (k.session, k.depth)) == ViewAt(views, k).sent
  {
    assert k == Key(k.ns, k.session, k.depth);
  }

  lemma StoresOneMore(ads: Ads, views: Views, k: Key, v: View)
    requires StoresAt(ads, views, k.ns)
    ensures StoresAt(WithAd(ads, (k.session, k.depth), v.sent), views[k := v], k.ns)
  {
  }

  lemma GenerationsDiffer(routes: seq<Route>, latest: nat)
    requires RoutesOk(routes, latest)
    ensures DistinctGenerations(routes)
  {
    forall i, j | 0 <= i < j < |routes|
      ensures routes[i].generation != routes[j].generation
    {
      assert Coexist(routes[i], routes[j]);
    }
  }

  lemma OnePending(ns: Namespace, pending: set<(Session, Namespace)>, sub: (Session, Namespace))
    requires sub in pending && sub.1 <= ns
    ensures KeysAt(ns, pending - {sub}) == KeysAt(ns, pending) + iset{Key(ns, sub.0, |sub.1|)}
    ensures Key(ns, sub.0, |sub.1|) !in KeysAt(ns, pending)
  {
    assert ns[..|sub.1|] == sub.1;
    forall k: Key | k.ns == ns && k.depth <= |ns| && (k.session, ns[..k.depth]) == sub
      ensures k == Key(ns, sub.0, |sub.1|)
    {
    }
  }

  /** The keys of a subscription, except those of pending namespaces. */
  ghost function KeysUnder(session: Session, prefix: Namespace, pending: set<Namespace>): iset<Key> {
    iset k: Key | k.session == session && k.depth == |prefix| && prefix <= k.ns && k.ns !in pending
  }

  /** The views after a new subscription was told of every namespace under its prefix
      that has a route for it. */
  lemma ViewsAfterTelling(
    routes: RouteTable, latest: nat, subs: Subscriptions, views: Views, local: nat, session: Session, prefix: Namespace)
    returns (after: Views)
    requires TableOk(routes, latest) && (session, prefix) in subs
    requires forall k :: k in KeysUnder(session, prefix, {}) ==> k !in views
    ensures OnlyReconciled(routes, subs, views, local, after, KeysUnder(session, prefix, {}))
  {
    hide RoutesOk, Best, OnlyReconciled;
    after := views;
    var info := subs[(session, prefix)];
    var eligible := EligibleTo(session, info, local);
    var pending := set ns | ns in routes && prefix <= ns && Best(routes[ns], eligible).Some?;
    forall k | k in KeysUnder(session, prefix, pending)
      ensures Reconciled(routes, subs, views, local, k) == UNTOLD
    {
      assert k in KeysUnder(session, prefix, {});
      assert k.ns[..k.depth] == prefix;
      NoRoutes(eligible);
    }
    NoneReconciled(routes, subs, views, local, KeysUnder(session, prefix, pending));
    while pending != {}
      invariant forall ns :: ns in pending ==> ns in routes && prefix <= ns
      invariant OnlyReconciled(routes, subs, views, local, after, KeysUnder(session, prefix, pending))
      decreases |pending|
    {
      var ns :| ns in pending;
      var k := Key(ns, session, |prefix|);
      assert ns[..k.depth] == prefix && k !in KeysUnder(session, prefix, pending);
      OneMoreReconciled(routes, subs, views, local, after, KeysUnder(session, prefix, pending), k);
      assert KeysUnder(session, prefix, pending - {ns}) == KeysUnder(session, prefix, pending) + iset{k};
      if info.handle {
        after := after[k := Reconcile(ViewAt(after, k), RouteFor(routes, subs, local, k), session, local)];
      }
      pending := pending - {ns};
    }
  }

  lemma NoRoutes(eligible: Route -> bool)
    ensures Best([], eligible) == None
  {
  }

  // --- Changing the routes of one namespace ------------------------------------------------

  ghost predicate AllKeysOk(routes: RouteTable, latest: nat, subs: Subscriptions, views: Views, local: nat) {
    forall k :: KeyOk(routes, latest, subs, views, local, k)
  }

  lemma ChangedRoutesSound(
    routes: RouteTable, latest: nat, subs: Subscriptions, views: Views, local: nat,
    ns: Namespace, rs: seq<Route>, latest': nat, k: Key)
    requires KeyOk(routes, latest, subs, views, local, k) && Evolves(RoutesAt(routes, ns), latest, rs, latest')
    ensures KeySound(routes[ns := rs], latest', subs, views, local, k)
  {
    if Live(subs, k) && k.ns == ns {
      KnowsEvolves(ViewAt(views, k), RoutesAt(routes, ns), latest, rs, latest');
    }
  }

  lemma ChangedTableOk(routes: RouteTable, latest: nat, ns: Namespace, rs: seq<Route>, latest': nat)
    requires TableOk(routes, latest) && RoutesOk(rs, latest') && latest <= latest'
    ensures TableOk(routes[ns := rs], latest')
  {
    var changed := routes[ns := rs];
    forall m
      ensures RoutesOk(RoutesAt(changed, m), latest')
    {
      assert RoutesOk(RoutesAt(routes, m), latest);
    }
  }

  lemma ChangeKeepsOk(
    routes: RouteTable, latest: nat, subs: Subscriptions, views: Views, local: nat,
    ns: Namespace, rs: seq<Route>, latest': nat, after: Views)
    requires TableOk(routes, latest) && AllKeysOk(routes, latest, subs, views, local)
    requires RoutesOk(rs, latest') && Evolves(RoutesAt(routes, ns), latest, rs, latest')
    requires OnlyReconciled(routes[ns := rs], subs, views, local, after, KeysAt(ns, {}))
    ensures TableOk(routes[ns := rs], latest') && AllKeysOk(routes[ns := rs], latest', subs, after, local)
  {
    var changed := routes[ns := rs];
    ChangedTableOk(routes, latest, ns, rs, latest');
    forall k
      ensures KeyOk(changed, latest', subs, after, local, k)
    {
      assert KeyOk(routes, latest, subs, views, local, k);
      ChangedRoutesSound(routes, latest, subs, views, local, ns, rs, latest', k);
      if k.ns == ns {
        assert k in KeysAt(ns, {});
        ReconciledIsOk(changed, latest', subs, views, local, after, k);
      } else {
        OtherKeyOk(routes, latest, changed, latest', subs, views, local, after, k);
      }
    }
  }

  lemma OtherKeyOk(
    routes: RouteTable, latest: nat, changed: RouteTable, latest': nat, subs: Subscriptions, views: Views, local: nat,
    after: Views, k: Key)
    requires KeyOk(routes, latest, subs, views, local, k) && KeySound(changed, latest', subs, views, local, k)
    requires RoutesAt(changed, k.ns) == RoutesAt(routes, k.ns)
    requires ViewAt(after, k) == ViewAt(views, k) && (k in after ==> k in views || Live(subs, k))
    ensures KeyOk(changed, latest', subs, after, local, k)
  {
  }

  // --- Subscribing and unsubscribing ----------------------------------------------------------

  lemma SubscribeKeepsOk(
    routes: RouteTable, latest: nat, subs: Subscriptions, views: Views, local: nat,
    session: Session, prefix: Namespace, info: Info, after: Views)
    requires TableOk(routes, latest) && AllKeysOk(routes, latest, subs, views, local) && (session, prefix) !in subs
    requires OnlyReconciled(routes, subs[(session, prefix) := info], views, local, after, KeysUnder(session, prefix, {}))
    ensures AllKeysOk(routes, latest, subs[(session, prefix) := info], after, local)
  {
    var added := subs[(session, prefix) := info];
    forall k
      ensures KeyOk(routes, latest, added, after, local, k)
    {
      assert KeyOk(routes, latest, subs, views, local, k);
      if k in KeysUnder(session, prefix, {}) {
        assert k.ns[..k.depth] == prefix;
        ReconciledIsOk(routes, latest, added, views, local, after, k);
      } else {
        NotUnder(session, prefix, k);
      }
    }
  }

  lemma NotUnder(session: Session, prefix: Namespace, k: Key)
    requires k !in KeysUnder(session, prefix, {})
    ensures k.depth <= |k.ns| ==> (k.session, k.ns[..k.depth]) != (session, prefix)
  {
  }

  function Forget(views: Views, session: Session, prefix: Namespace): Views {
    map k | k in views && !(k.session == session && k.depth == |prefix| && prefix <= k.ns) :: views[k]
  }

  lemma UnsubscribeKeepsOk(
    routes: RouteTable, latest: nat, subs: Subscriptions, views: Views, local: nat, session: Session, prefix: Namespace)
    requires AllKeysOk(routes, latest, subs, views, local)
    ensures AllKeysOk(routes, latest, subs - {(session, prefix)}, Forget(views, session, prefix), local)
  {
    forall k
      ensures KeyOk(routes, latest, subs - {(session, prefix)}, Forget(views, session, prefix), local, k)
    {
      assert KeyOk(routes, latest, subs, views, local, k);
      if k !in KeysUnder(session, prefix, {}) {
        NotUnder(session, prefix, k);
      } else {
        assert k.ns[..k.depth] == prefix;
      }
    }
  }

  /** What the invariant means for a subscription over a namespace: it is told of the
      namespace exactly when some route is eligible for it, and in the cluster the last
      thing it was told is the best such route. */
  lemma SubscriberIsToldTheBest(
    routes: RouteTable, latest: nat, subs: Subscriptions, views: Views, local: nat, k: Key)
    returns (best: Option<Route>)
    requires TableOk(routes, latest) && AllKeysOk(routes, latest, subs, views, local) && Live(subs, k)
    ensures var rs := RoutesAt(routes, k.ns);
            var info := subs[(k.session, k.ns[..k.depth])];
            var log := ViewAt(views, k).log;
            && TraceOk(log)
            && (Open(log) <==> best.Some?)
            && (best.None? <==> forall r :: r in rs ==> !Eligible(r, k.session, info, local))
            && (best.Some? ==>
                  && best.value in rs && Eligible(best.value, k.session, info, local)
                  && (forall r :: r in rs && Eligible(r, k.session, info, local) && r != best.value ==> Better(best.value, r))
                  && (forall r :: r in rs && Eligible(r, k.session, info, local) ==> Leads(best.value, r))
                  && MayHear(best.value, k.session, info, local))
            && (best.Some? && k.session.cluster ==>
                  log[|log| - 1] == Told(Some(Params(best.value.path + [local], best.value.cost))))
            && (best.Some? && !k.session.cluster ==> log[|log| - 1] == Told(None))
  {
    var rs := RoutesAt(routes, k.ns);
    var eligible := EligibleTo(k.session, subs[(k.session, k.ns[..k.depth])], local);
    assert KeyOk(routes, latest, subs, views, local, k);
    GenerationsDiffer(rs, latest);
    BestIsBest(rs, eligible);
    best := Best(rs, eligible);
  }

  // --- The tree behind the flat maps -----------------------------------------------------------

  /** The tree has exactly these routes and subscriptions. */
  ghost predicate Represents(root: Node, routes: RouteTable, subs: Subscriptions) {
    && (forall ns :: ContentAt(root, ns).routes == RoutesAt(routes, ns))
    && (forall ns, s :: s in ContentAt(root, ns).subscribers <==> (s, ns) in subs)
    && (forall ns, s :: (s, ns) in subs ==> ContentAt(root, ns).subscribers[s] == subs[(s, ns)])
  }

  /** Tree and table stay in step when the routes of one namespace change. */
  lemma RoutesStayInStep(root: Node, after: Node, routes: RouteTable, subs: Subscriptions, ns: Namespace, rs: seq<Route>)
    requires Represents(root, routes, subs) && Differs(root, after, ns, ContentAt(root, ns).(routes := rs))
    ensures Represents(after, routes[ns := rs], subs)
  {
    var changed := routes[ns := rs];
    forall m
      ensures ContentAt(after, m).routes == RoutesAt(changed, m)
      ensures ContentAt(after, m).subscribers == ContentAt(root, m).subscribers
    {
      assert ContentAt(root, m).routes == RoutesAt(routes, m);
    }
  }

  lemma SubscribersStayInStep(
    root: Node, after: Node, routes: RouteTable, subs: Subscriptions, ns: Namespace, session: Session, info: Info)
    requires Represents(root, routes, subs) && (session, ns) !in subs
    requires var c := ContentAt(root, ns); Differs(root, after, ns, c.(subscribers := c.subscribers[session := info]))
    ensures Represents(after, routes, subs[(session, ns) := info])
  {
    forall m
      ensures ContentAt(after, m).routes == RoutesAt(routes, m)
    {
      assert ContentAt(root, m).routes == RoutesAt(routes, m);
    }
  }

  lemma UnsubscribedStayInStep(
    root: Node, after: Node, routes: RouteTable, subs: Subscriptions, ns: Namespace, session: Session)
    requires Represents(root, routes, subs)
    requires var c := ContentAt(root, ns); Differs(root, after, ns, c.(subscribers := c.subscribers - {session}))
    ensures Represents(after, routes, subs - {(session, ns)})
  {
    forall m
      ensures ContentAt(after, m).routes == RoutesAt(routes, m)
    {
      assert ContentAt(root, m).routes == RoutesAt(routes, m);
    }
  }

  /** What the walk to a node collects is what is to be reconciled there. */
  lemma CollectedAreReconciled(
    root: Node, routes: RouteTable, subs: Subscriptions, ns: Namespace, out: seq<(nat, Session, Info)>)
    requires Represents(root, routes, subs) && SubscribersOf(root, ns, |ns| + 1, out)
    ensures Collected(subs, ns, out)
  {
    forall sub | sub in subs && sub.1 <= ns
      ensures (|sub.1|, sub.0, subs[sub]) in out
    {
      assert ns[..|sub.1|] == sub.1;
    }
    forall i | 0 <= i < |out|
      ensures out[i].0 <= |ns| && (out[i].1, ns[..out[i].0]) in subs && subs[(out[i].1, ns[..out[i].0])] == out[i].2
    {
      assert (out[i].0, out[i].1, out[i].2) in out;
    }
  }

  /** Before a prefix is subscribed, nothing was told for it. */
  lemma NoneTold(
    routes: RouteTable, latest: nat, subs: Subscriptions, views: Views, local: nat, session: Session, prefix: Namespace)
    requires AllKeysOk(routes, latest, subs, views, local) && (session, prefix) !in subs
    ensures forall k :: k in KeysUnder(session, prefix, {}) ==> k !in views
  {
    forall k | k in KeysUnder(session, prefix, {})
      ensures k !in views
    {
      assert KeyOk(routes, latest, subs, views, local, k);
      assert k.ns[..k.depth] == prefix;
    }
  }
}
