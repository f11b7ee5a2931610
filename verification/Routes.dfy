/** The routes of one namespace: which is best, and how announcements change them. */
module Routes {
  import opened Locations
  import opened HopPaths

  /** A peer connection. A cluster session negotiated MoQ Cluster; only it exchanges
      hop paths and route costs. */
  datatype Session = Session(id: nat, cluster: bool, peerHop: nat, linkCost: Cost)

  /** One way to a publisher of the namespace. The generation is new whenever the
      publisher behind the route may have changed. */
  datatype Route = Route(
    session: Session,
    callback: bool,
    peerID: string,
    requestID: nat,
    path: Path,
    cost: Cost,
    generation: nat)

  // --- Which route is better -------------------------------------------------------

  predicate Anonymous(r: Route) {
    ANON in r.path
  }

  /** A path without hop 0 first, then the lower cost, the shorter path, the newer
      generation. */
  predicate Better(a: Route, b: Route) {
    if Anonymous(a) != Anonymous(b) then !Anonymous(a)
    else if a.cost != b.cost then a.cost < b.cost
    else if |a.path| != |b.path| then |a.path| < |b.path|
    else b.generation < a.generation
  }

  /** On routes of different generations this is a strict total order. */
  lemma BetterIsTotalOrder(a: Route, b: Route, c: Route)
    ensures !Better(a, a)
    ensures Better(a, b) && Better(b, c) ==> Better(a, c)
    ensures a.generation != b.generation ==> (Better(a, b) <==> !Better(b, a))
  {
  }

  /** What the path-selection rule asks of the selected route against any other. */
  ghost predicate Leads(best: Route, r: Route) {
    var alike := ANON in best.path <==> ANON in r.path;
    && (ANON in best.path ==> ANON in r.path)
    && (alike ==> best.cost <= r.cost)
    && (alike && best.cost == r.cost ==> |best.path| <= |r.path|)
    && (alike && best.cost == r.cost && |best.path| == |r.path| ==> r.generation <= best.generation)
  }

  /** The best eligible route, taken from the front. */
  function Best(routes: seq<Route>, eligible: Route -> bool): Option<Route> {
    if routes == [] then None
    else
      var last := routes[|routes| - 1];
      var before := Best(routes[..|routes| - 1], eligible);
      if eligible(last) && (before.None? || Better(last, before.value)) then Some(last) else before
  }

  ghost predicate DistinctGenerations(routes: seq<Route>) {
    forall i, j :: 0 <= i < j < |routes| ==> routes[i].generation != routes[j].generation
  }

  lemma BetterLeads(a: Route, b: Route)
    ensures Leads(a, a) && (Better(a, b) ==> Leads(a, b))
  {
  }

  /** Best is what the path-selection rule asks for, and there is only one such route:
      anonymity counts first, then cost, then length, then age. */
  lemma {:induction false} BestIsBest(routes: seq<Route>, eligible: Route -> bool)
    requires DistinctGenerations(routes)
    ensures Best(routes, eligible).None? <==> forall r :: r in routes ==> !eligible(r)
    ensures Best(routes, eligible).Some? ==>
              var best := Best(routes, eligible).value;
              && best in routes && eligible(best)
              && (forall r :: r in routes && eligible(r) && r != best ==> Better(best, r))
              && (forall r :: r in routes && eligible(r) ==> Leads(best, r))
  {
    hide Better, Leads;
    if routes != [] {
      var init, last := routes[..|routes| - 1], routes[|routes| - 1];
      assert routes == init + [last];
      BestIsBest(init, eligible);
      var before := Best(init, eligible);
      if before.Some? {
        assert before.value.generation != last.generation;
        BetterIsTotalOrder(last, before.value, last);
        forall r | r in init && eligible(r) && r != before.value
          ensures Better(last, before.value) ==> Better(last, r)
        {
          BetterIsTotalOrder(last, before.value, r);
        }
      }
    }
    if Best(routes, eligible).Some? {
      var best := Best(routes, eligible).value;
      forall r | r in routes && eligible(r)
        ensures Leads(best, r)
      {
        BetterLeads(best, r);
      }
    }
  }

  method SelectRoute(routes: seq<Route>, eligible: Route -> bool) returns (best: Option<Route>)
    requires DistinctGenerations(routes)
    ensures best.None? <==> forall r :: r in routes ==> !eligible(r)
    ensures best.Some? ==>
              && best.value in routes && eligible(best.value)
              && (forall r :: r in routes && eligible(r) && r != best.value ==> Better(best.value, r))
              && (forall r :: r in routes && eligible(r) ==> Leads(best.value, r))
    ensures best == Best(routes, eligible)
  {
    best := None;
    for i := 0 to |routes|
      invariant best == Best(routes[..i], eligible)
    {
      assert routes[..i + 1][..i] == routes[..i];
      if eligible(routes[i]) && (best.None? || Better(routes[i], best.value)) {
        best := Some(routes[i]);
      }
    }
    assert routes[..|routes|] == routes;
    BestIsBest(routes, eligible);
  }

  // --- How announcements change the routes ------------------------------------------

  /** Two routes of one node differ in generation and session, and at most one of
      them is from outside the cluster. */
  ghost predicate Coexist(a: Route, b: Route) {
    a.generation != b.generation && a.session != b.session && (a.session.cluster || b.session.cluster)
  }

  ghost predicate RouteOk(r: Route, latest: nat) {
    0 < r.generation <= latest && r.path != []
  }

  /** What every node keeps. Generations up to latest have been used. */
  ghost predicate RoutesOk(routes: seq<Route>, latest: nat) {
    && (forall r :: r in routes ==> RouteOk(r, latest))
    && (forall i, j :: 0 <= i < j < |routes| ==> Coexist(routes[i], routes[j]))
  }

  /** The announcement of session displaces this route. */
  predicate Displaces(session: Session, r: Route) {
    r.session == session || (!session.cluster && !r.session.cluster)
  }

  function Displacing(session: Session): Route -> bool {
    r => Displaces(session, r)
  }

  /** The first index whose route satisfies p. */
  function Find(routes: seq<Route>, p: Route -> bool): (r: Option<nat>)
    ensures r.Some? ==> r.value < |routes| && p(routes[r.value])
    ensures r.None? <==> forall x :: x in routes ==> !p(x)
  {
    if routes == [] then None
    else if p(routes[0]) then Some(0)
    else
      var rest := Find(routes[1..], p);
      assert routes == [routes[0]] + routes[1..];
      if rest.Some? then Some(rest.value + 1) else None
  }

  function Erase(routes: seq<Route>, i: nat): seq<Route>
    requires i < |routes|
  {
    routes[..i] + routes[i + 1..]
  }

  predicate SameOrigin(a: Path, b: Path) {
    a != [] && b != [] && a[0] == b[0]
  }

  /** A new path and cost; a new origin makes it a new generation. */
  function Revise(r: Route, path: Path, cost: Cost, latest: nat): Route {
    r.(path := path, cost := cost, generation := if SameOrigin(r.path, path) then r.generation else latest + 1)
  }

  function NextGeneration(r: Route, path: Path, latest: nat): nat {
    if SameOrigin(r.path, path) then latest else latest + 1
  }

  /** A NAMESPACE repeated by its session, which updates the route in place. */
  predicate Repeats(r: Route, session: Session, callback: bool) {
    r.session == session && session.cluster && !r.callback && !callback
  }

  /** The routes and the latest generation after an announcement. The generation of
      announced is not used. */
  function SetPublisher(routes: seq<Route>, announced: Route, latest: nat): (seq<Route>, nat) {
    var existing := Find(routes, Displacing(announced.session));
    if existing.Some? && Repeats(routes[existing.value], announced.session, announced.callback) then
      var r := routes[existing.value];
      (routes[existing.value := Revise(r.(peerID := announced.peerID), announced.path, announced.cost, latest)],
       NextGeneration(r, announced.path, latest))
    else
      var kept := if existing.Some? then Erase(routes, existing.value) else routes;
      (kept + [announced.(generation := latest + 1)], latest + 1)
  }

  /** The index of the route that session announced under requestID. */
  function FindRoute(routes: seq<Route>, session: Session, requestID: Option<nat>): Option<nat> {
    Find(routes, (r: Route) => r.session == session && (requestID.None? || r.requestID == requestID.value))
  }

  /** The routes after session's route under requestID got a new path and cost. */
  function UpdateRoute(routes: seq<Route>, i: nat, path: Path, cost: Cost, latest: nat): (seq<Route>, nat)
    requires i < |routes|
  {
    (routes[i := Revise(routes[i], path, cost, latest)], NextGeneration(routes[i], path, latest))
  }

  // --- What the changes keep -------------------------------------------------------

  function Origin(p: Path): Option<nat> {
    if p == [] then None else Some(p[0])
  }

  ghost predicate HasRoute(routes: seq<Route>, generation: nat, origin: Option<nat>) {
    exists r :: r in routes && r.generation == generation && Origin(r.path) == origin
  }

  /** Afterwards a route is of a new generation, or of an old one with the same origin. */
  ghost predicate Evolves(routes: seq<Route>, latest: nat, after: seq<Route>, latest': nat) {
    && latest <= latest'
    && (forall r :: r in after ==> r.generation > latest || HasRoute(routes, r.generation, Origin(r.path)))
  }

  lemma EraseKeepsOk(routes: seq<Route>, i: nat, latest: nat)
    requires RoutesOk(routes, latest) && i < |routes|
    ensures RoutesOk(Erase(routes, i), latest) && Evolves(routes, latest, Erase(routes, i), latest)
    ensures forall r :: r in Erase(routes, i) <==> r in routes && r != routes[i]
  {
    var rest := Erase(routes, i);
    forall r | r in routes && r != routes[i]
      ensures r in rest
    {
      var k :| 0 <= k < |routes| && routes[k] == r;
      assert rest[if k < i then k else k - 1] == r;
    }
    forall r | r in rest
      ensures r in routes && r != routes[i]
    {
      var k :| 0 <= k < |rest| && rest[k] == r;
      assert rest[k] == routes[if k < i then k else k + 1];
    }
  }

  lemma AppendKeepsOk(routes: seq<Route>, added: Route, latest: nat)
    requires RoutesOk(routes, latest) && added.path != [] && added.generation == latest + 1
    requires forall r :: r in routes ==> !Displaces(added.session, r)
    ensures RoutesOk(routes + [added], latest + 1)
  {
    var after := routes + [added];
    forall i, j | 0 <= i < j < |after|
      ensures Coexist(after[i], after[j])
    {
      if j == |routes| {
        assert after[i] in routes;
      }
    }
  }

  lemma UpdateKeepsOk(routes: seq<Route>, i: nat, peerID: string, path: Path, cost: Cost, latest: nat)
    requires RoutesOk(routes, latest) && i < |routes| && path != []
    ensures var r := Revise(routes[i].(peerID := peerID), path, cost, latest);
            var latest' := NextGeneration(routes[i], path, latest);
            RoutesOk(routes[i := r], latest') && Evolves(routes, latest, routes[i := r], latest')
  {
    var r := Revise(routes[i].(peerID := peerID), path, cost, latest);
    var after := routes[i := r];
    forall j, k | 0 <= j < k < |after|
      ensures Coexist(after[j], after[k])
    {
      assert Coexist(routes[j], routes[k]);
      assert RouteOk(routes[j], latest) && RouteOk(routes[k], latest);
    }
    forall x | x in after
      ensures RouteOk(x, NextGeneration(routes[i], path, latest))
      ensures x.generation > latest || HasRoute(routes, x.generation, Origin(x.path))
    {
      assert routes[i] in routes && RouteOk(routes[i], latest);
      assert x in routes || x == r;
    }
  }

  /** Replacing one of several distinct routes. */
  lemma ReplaceMembers(routes: seq<Route>, i: nat, r: Route, latest: nat, x: Route)
    requires RoutesOk(routes, latest) && i < |routes| && r.session == routes[i].session
    ensures x.session != r.session ==> (x in routes[i := r] <==> x in routes)
    ensures x.session == r.session ==> (x in routes[i := r] <==> x == r)
  {
    var after := routes[i := r];
    assert after[i] == r;
    if x in routes {
      var k :| 0 <= k < |routes| && routes[k] == x;
      assert k != i ==> after[k] == x;
    }
    if x in after && x != r {
      var k :| 0 <= k < |after| && after[k] == x;
      assert if k < i then Coexist(routes[k], routes[i]) else Coexist(routes[i], routes[k]);
    }
  }

  /** An announcement keeps what every node keeps. */
  lemma SetPublisherKeepsOk(routes: seq<Route>, announced: Route, latest: nat)
    requires RoutesOk(routes, latest) && announced.path != []
    ensures var (after, latest') := SetPublisher(routes, announced, latest);
            && RoutesOk(after, latest') && Evolves(routes, latest, after, latest')
            && (latest' == latest || (latest' == latest + 1 && exists r :: r in after && r.generation == latest'))
  {
    var existing := Find(routes, Displacing(announced.session));
    if existing.Some? {
      var i := existing.value;
      if Repeats(routes[i], announced.session, announced.callback) {
        UpdateKeepsOk(routes, i, announced.peerID, announced.path, announced.cost, latest);
        var after := SetPublisher(routes, announced, latest).0;
        assert after[i] in after;
      } else {
        EraseKeepsOk(routes, i, latest);
        OneDisplaced(routes, announced.session, i, latest);
        AppendKeepsOk(Erase(routes, i), announced.(generation := latest + 1), latest);
      }
    } else {
      AppendKeepsOk(routes, announced.(generation := latest + 1), latest);
    }
  }

  /** An announcement displaces at most one route. */
  lemma OneDisplaced(routes: seq<Route>, session: Session, i: nat, latest: nat)
    requires RoutesOk(routes, latest) && i < |routes| && Displaces(session, routes[i])
    ensures forall r :: r in routes && r != routes[i] ==> !Displaces(session, r)
  {
    forall r | r in routes && r != routes[i]
      ensures !Displaces(session, r)
    {
      var k :| 0 <= k < |routes| && routes[k] == r;
      assert if k < i then Coexist(routes[k], routes[i]) else Coexist(routes[i], routes[k]);
    }
  }

  /** r is a route that a repeated NAMESPACE updated in place. */
  ghost predicate RepeatOf(routes: seq<Route>, r: Route) {
    exists o :: o in routes && Repeats(o, r.session, r.callback) && r.requestID == o.requestID
  }

  /** Afterwards the session has exactly one route, with the announced path and cost.
      Of the others, exactly those from outside the cluster give way, and only to a
      session from outside the cluster. */
  lemma SetPublisherMeans(routes: seq<Route>, announced: Route, latest: nat, r: Route)
    requires RoutesOk(routes, latest)
    ensures var after := SetPublisher(routes, announced, latest).0;
            && (r.session == announced.session && r in after ==>
                  r.path == announced.path && r.cost == announced.cost && r.peerID == announced.peerID &&
                  (r.(generation := announced.generation) == announced || RepeatOf(routes, r)))
            && (exists own :: own in after && own.session == announced.session)
            && (r.session != announced.session ==> (r in after <==> r in routes && !Displaces(announced.session, r)))
  {
    var existing := Find(routes, Displacing(announced.session));
    var after := SetPublisher(routes, announced, latest).0;
    if existing.Some? {
      var i := existing.value;
      OneDisplaced(routes, announced.session, i, latest);
      if Repeats(routes[i], announced.session, announced.callback) {
        assert after[i] in after;
        ReplaceMembers(routes, i, after[i], latest, r);
      } else {
        EraseKeepsOk(routes, i, latest);
        assert after[|after| - 1] in after;
      }
    } else {
      assert after[|after| - 1] in after;
    }
  }
  /** A NAMESPACE that its session repeats keeps the request, and the generation as long
      as the origin is the same; any other announcement is new. */
  lemma RepeatKeepsGeneration(routes: seq<Route>, announced: Route, latest: nat, o: Route, own: Route)
    requires RoutesOk(routes, latest)
    requires var after := SetPublisher(routes, announced, latest).0; own in after && own.session == announced.session
    ensures o in routes && o.session == announced.session && announced.session.cluster && !o.callback && !announced.callback ==>
              && own.requestID == o.requestID && !own.callback
              && own.generation == if o.path != [] && announced.path != [] && o.path[0] == announced.path[0]
                                   then o.generation else latest + 1
    ensures (forall x :: x in routes && x.session == announced.session ==> !announced.session.cluster || x.callback || announced.callback) ==>
              own == announced.(generation := latest + 1)
  {
    var existing := Find(routes, Displacing(announced.session));
    var after := SetPublisher(routes, announced, latest).0;
    if existing.Some? {
      var i := existing.value;
      OneDisplaced(routes, announced.session, i, latest);
      if Repeats(routes[i], announced.session, announced.callback) {
        ReplaceMembers(routes, i, after[i], latest, own);
      } else {
        EraseKeepsOk(routes, i, latest);
      }
    }
  }
}
