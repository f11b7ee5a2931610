/** Loop freedom of hop paths in a network of relays that all run this code over
    MoQ Cluster links. Hop ID 0 is anonymous: it may repeat. */
module HopPaths {

  type RelayId = nat
  type Path = seq<nat>

  const ANON: nat := 0
  const MAX_COST: nat := 0xffff_ffff_ffff_ffff

  type Cost = c: nat | c <= MAX_COST

  /** Hop 0 is never found in a path. */
  predicate ClusterPathContains(path: Path, hop: nat) {
    hop != ANON && hop in path
  }

  /** Costs saturate instead of wrapping around. */
  function ClusterAddCost(cost: nat, link: nat): (r: nat)
    requires cost <= MAX_COST && link <= MAX_COST
    ensures r <= MAX_COST && r >= cost && r >= link
    ensures cost + link <= MAX_COST <==> r == cost + link
  {
    if cost > MAX_COST - link then MAX_COST else cost + link
  }

  /** What may be sent to a peer: no path with the peer's own Hop ID in it, and nothing
      at all to a peer that claims this relay's. */
  predicate MayAdvertise(path: Path, peerHop: nat, localHop: nat) {
    !ClusterPathContains(path, peerHop) && (peerHop == ANON || peerHop != localHop)
  }

  /** The advertised path ends in the advertising relay. */
  function Outgoing(path: Path, localHop: nat): Path {
    path + [localHop]
  }

  /** What a relay keeps of a received path: nothing, if it runs through itself. */
  predicate Accepts(path: Path, localHop: nat) {
    !ClusterPathContains(path, localHop)
  }

  // --- The network -------------------------------------------------------------------

  /** A path as a relay keeps it. */
  datatype Kept = Kept(relay: RelayId, path: Path, cost: Cost)

  /** A path on the way from one relay to another. */
  datatype Message = Message(from: RelayId, to: RelayId, path: Path, cost: Cost)

  /** `links` has what the receiving relay adds for a path that comes over the link. */
  datatype Network = Network(
    hops: map<RelayId, nat>,
    links: map<(RelayId, RelayId), Cost>,
    stored: set<Kept>,
    inFlight: set<Message>)

  datatype Step =
    | Originate(relay: RelayId, cost: Cost)
    | Advertise(kept: Kept, peer: RelayId)
    | Receive(message: Message, previous: set<Kept>)
    | Withdraw(kept: Kept)
    | Lose(message: Message)

  function LinkCost(net: Network, from: RelayId, to: RelayId): Cost {
    if (from, to) in net.links then net.links[(from, to)] else 0
  }

  /** A publisher outside the cluster is ingested with the path [0] and the cost of its
      own link. A received path replaces what the sending peer had advertised before; it
      does so even when it is refused. */
  function Apply(net: Network, step: Step): Network {
    match step
    case Originate(r, cost) =>
      if r in net.hops then net.(stored := net.stored + {Kept(r, [ANON], cost)}) else net
    case Advertise(e, q) =>
      if e in net.stored && e.relay in net.hops && q in net.hops && MayAdvertise(e.path, net.hops[q], net.hops[e.relay])
      then net.(inFlight := net.inFlight + {Message(e.relay, q, Outgoing(e.path, net.hops[e.relay]), e.cost)})
      else net
    case Receive(m, previous) =>
      if m !in net.inFlight || m.to !in net.hops then net
      else
        var kept := set e | e in net.stored && !(e.relay == m.to && e in previous);
        var received := Kept(m.to, m.path, ClusterAddCost(m.cost, LinkCost(net, m.from, m.to)));
        net.(inFlight := net.inFlight - {m},
             stored := if Accepts(m.path, net.hops[m.to]) then kept + {received} else kept)
    case Withdraw(e) => net.(stored := net.stored - {e})
    case Lose(m) => net.(inFlight := net.inFlight - {m})
  }

  /** A received path takes the place of what its receiver is told to replace, and of
      nothing else; one that would loop is dropped, but replaces all the same. */
  lemma ReceiveReplaces(net: Network, m: Message, previous: set<Kept>, e: Kept)
    requires m in net.inFlight && m.to in net.hops
    ensures var after := Apply(net, Receive(m, previous));
            var looped := net.hops[m.to] != ANON && net.hops[m.to] in m.path;
            && (e in after.stored && e !in net.stored ==> e.relay == m.to && e.path == m.path && !looped)
            && (e in net.stored && e.relay != m.to ==> e in after.stored)
            && (e in net.stored && e !in previous ==> e in after.stored)
            && (e in after.stored && e.relay == m.to && e in previous ==> e.path == m.path && !looped)
            && (!looped ==> exists kept :: kept in after.stored && kept.relay == m.to && kept.path == m.path)
            && after.inFlight == net.inFlight - {m}
  {
    if Accepts(m.path, net.hops[m.to]) {
      var received := Kept(m.to, m.path, ClusterAddCost(m.cost, LinkCost(net, m.from, m.to)));
      assert received in Apply(net, Receive(m, previous)).stored;
    }
  }

  function Run(net: Network, steps: seq<Step>): Network
    decreases |steps|
  {
    if steps == [] then net else Run(Apply(net, steps[0]), steps[1..])
  }

  /** No Hop ID but the anonymous one occurs twice. */
  ghost predicate LoopFree(p: Path) {
    forall i, j :: 0 <= i < j < |p| && p[i] != ANON ==> p[i] != p[j]
  }

  /** A path starts at a publisher outside the cluster and goes on through relays
      of the network. */
  ghost predicate FromNetwork(net: Network, p: Path) {
    p != [] && p[0] == ANON && forall i :: 0 < i < |p| ==> p[i] in net.hops.Values
  }

  ghost predicate NetworkOk(net: Network) {
    && (forall e :: e in net.stored ==>
          e.relay in net.hops && LoopFree(e.path) && FromNetwork(net, e.path) && !ClusterPathContains(e.path, net.hops[e.relay]))
    && (forall m :: m in net.inFlight ==>
          m.from in net.hops && m.to in net.hops && LoopFree(m.path) && FromNetwork(net, m.path))
  }

  lemma OutgoingOk(net: Network, p: Path, r: RelayId)
    requires LoopFree(p) && FromNetwork(net, p) && r in net.hops && !ClusterPathContains(p, net.hops[r])
    ensures LoopFree(Outgoing(p, net.hops[r])) && FromNetwork(net, Outgoing(p, net.hops[r]))
  {
    var out := Outgoing(p, net.hops[r]);
    forall i, j | 0 <= i < j < |out| && out[i] != ANON
      ensures out[i] != out[j]
    {
      if j == |p| {
        assert out[i] in p;
      }
    }
  }

  lemma ApplyKeepsOk(net: Network, step: Step)
    requires NetworkOk(net)
    ensures NetworkOk(Apply(net, step))
    ensures Apply(net, step).hops == net.hops && Apply(net, step).links == net.links
  {
    if step.Advertise? && step.kept in net.stored && step.kept.relay in net.hops {
      OutgoingOk(net, step.kept.path, step.kept.relay);
    }
  }

  /** On every run no stored or in-flight path repeats a non-zero Hop ID, and no
      relay stores a path that contains its own. */
  lemma {:induction false} RunKeepsOk(net: Network, steps: seq<Step>)
    requires NetworkOk(net)
    ensures NetworkOk(Run(net, steps)) && Run(net, steps).hops == net.hops && Run(net, steps).links == net.links
    decreases |steps|
  {
    if steps != [] {
      ApplyKeepsOk(net, steps[0]);
      RunKeepsOk(Apply(net, steps[0]), steps[1..]);
    }
  }

  // --- Where a path and its cost come from ---------------------------------------------

  /** The Hop IDs of the relays, in order. */
  ghost function HopsOf(hops: map<RelayId, nat>, relays: seq<RelayId>): Path
    requires forall r :: r in relays ==> r in hops
  {
    seq(|relays|, i requires 0 <= i < |relays| => hops[relays[i]])
  }

  /** What the links between successive relays add. */
  ghost function LinkSum(net: Network, relays: seq<RelayId>): nat {
    if |relays| < 2 then 0
    else
      var link := (relays[|relays| - 2], relays[|relays| - 1]);
      LinkSum(net, relays[..|relays| - 1]) + if link in net.links then net.links[link] else 0
  }

  ghost function Saturated(cost: nat): Cost {
    if cost <= MAX_COST then cost else MAX_COST
  }

  /** The path has come to the last of the relays through the others, from a publisher
      whose link costs first. */
  ghost predicate CameThrough(net: Network, relays: seq<RelayId>, first: Cost, path: Path, cost: Cost) {
    && relays != [] && (forall r :: r in relays ==> r in net.hops)
    && path == [ANON] + HopsOf(net.hops, relays[..|relays| - 1])
    && cost == Saturated(first + LinkSum(net, relays))
  }

  ghost predicate Accounted(net: Network, e: Kept) {
    exists relays: seq<RelayId>, first: Cost ::
      CameThrough(net, relays, first, e.path, e.cost) && relays[|relays| - 1] == e.relay
  }

  /** A message is on its last link, whose cost the receiver is still to add. */
  ghost predicate AccountedMessage(net: Network, m: Message) {
    exists e: Kept :: e.relay == m.from && e.relay in net.hops && Accounted(net, e) &&
      m.path == e.path + [net.hops[e.relay]] && m.cost == e.cost
  }

  ghost predicate AllAccounted(net: Network) {
    && (forall e :: e in net.stored ==> Accounted(net, e))
    && (forall m :: m in net.inFlight ==> AccountedMessage(net, m))
  }

  lemma OneMoreLink(net: Network, e: Kept, to: RelayId)
    requires Accounted(net, e) && e.relay in net.hops && to in net.hops
    ensures Accounted(net, Kept(to, e.path + [net.hops[e.relay]], ClusterAddCost(e.cost, LinkCost(net, e.relay, to))))
  {
    var relays, first: Cost :| CameThrough(net, relays, first, e.path, e.cost) && relays[|relays| - 1] == e.relay;
    var longer := relays + [to];
    assert longer[..|longer| - 1] == relays;
    assert HopsOf(net.hops, relays) == HopsOf(net.hops, relays[..|relays| - 1]) + [net.hops[e.relay]];
    assert CameThrough(net, longer, first, e.path + [net.hops[e.relay]], ClusterAddCost(e.cost, LinkCost(net, e.relay, to)));
  }

  /** Whether a path is accounted for depends on the relays and links alone. */
  lemma AccountedStays(net: Network, after: Network, e: Kept)
    requires after.hops == net.hops && after.links == net.links && Accounted(net, e)
    ensures Accounted(after, e)
  {
    var relays, first: Cost :| CameThrough(net, relays, first, e.path, e.cost) && relays[|relays| - 1] == e.relay;
    SameLinkSum(net, after, relays);
    assert CameThrough(after, relays, first, e.path, e.cost);
  }

  lemma {:induction false} SameLinkSum(net: Network, after: Network, relays: seq<RelayId>)
    requires after.links == net.links
    ensures LinkSum(after, relays) == LinkSum(net, relays)
  {
    if |relays| >= 2 {
      SameLinkSum(net, after, relays[..|relays| - 1]);
    }
  }

  lemma OriginAccounted(net: Network, r: RelayId, cost: Cost)
    requires r in net.hops
    ensures Accounted(net, Kept(r, [ANON], cost))
  {
    assert HopsOf(net.hops, [r][..0]) == [];
    assert CameThrough(net, [r], cost, [ANON], cost);
  }

  lemma ApplyKeepsAccounted(net: Network, step: Step)
    requires NetworkOk(net) && AllAccounted(net)
    ensures AllAccounted(Apply(net, step))
  {
    var after := Apply(net, step);
    ApplyKeepsOk(net, step);
    forall e | e in after.stored
      ensures Accounted(after, e)
    {
      if e !in net.stored {
        if step.Originate? {
          OriginAccounted(net, step.relay, step.cost);
        } else {
          var m := step.message;
          var before: Kept :|
            before.relay == m.from && before.relay in net.hops && Accounted(net, before) &&
            m.path == before.path + [net.hops[before.relay]] && m.cost == before.cost;
          OneMoreLink(net, before, m.to);
        }
      }
      AccountedStays(net, after, e);
    }
    forall m | m in after.inFlight
      ensures AccountedMessage(after, m)
    {
      var e: Kept := if m in net.inFlight then
        var e: Kept :|
          e.relay == m.from && e.relay in net.hops && Accounted(net, e) &&
          m.path == e.path + [net.hops[e.relay]] && m.cost == e.cost;
        e
      else step.kept;
      AccountedStays(net, after, e);
    }
  }

  /** On every run a stored path lists the relays that it came through, in order and
      without this one, and costs what the links on the way add up to, capped. */
  lemma {:induction false} RunKeepsAccounted(net: Network, steps: seq<Step>)
    requires NetworkOk(net) && AllAccounted(net)
    ensures AllAccounted(Run(net, steps))
    decreases |steps|
  {
    if steps != [] {
      ApplyKeepsOk(net, steps[0]);
      ApplyKeepsAccounted(net, steps[0]);
      RunKeepsAccounted(Apply(net, steps[0]), steps[1..]);
    }
  }

  lemma {:induction false} RunTwice(net: Network, a: seq<Step>, b: seq<Step>)
    ensures Run(net, a + b) == Run(Run(net, a), b)
    decreases |a|
  {
    if a == [] {
      assert a + b == b;
    } else {
      assert (a + b)[1..] == a[1..] + b;
      RunTwice(Apply(net, a[0]), a[1..], b);
    }
  }

  lemma Passed(net: Network, e: Kept, to: RelayId)
    requires e in net.stored && e.relay in net.hops && to in net.hops
    requires net.hops[to] == ANON || (net.hops[to] !in e.path && net.hops[to] != net.hops[e.relay])
    ensures var path := e.path + [net.hops[e.relay]];
            var steps := [Advertise(e, to), Receive(Message(e.relay, to, path, e.cost), {})];
            Kept(to, path, ClusterAddCost(e.cost, LinkCost(net, e.relay, to))) in Run(net, steps).stored
  {
    var path := e.path + [net.hops[e.relay]];
    var m := Message(e.relay, to, path, e.cost);
    var sent := Apply(net, Advertise(e, to));
    assert sent == net.(inFlight := net.inFlight + {m});
    var received := Apply(sent, Receive(m, {}));
    assert Run(received, []) == received;
    assert Run(sent, [Receive(m, {})]) == received by {
      assert [Receive(m, {})][1..] == [];
    }
    assert [Advertise(e, to), Receive(m, {})][1..] == [Receive(m, {})];
  }

  lemma LastHopIsNew(hops: map<RelayId, nat>, relays: seq<RelayId>)
    requires relays != [] && (forall r :: r in relays ==> r in hops) && LoopFree(HopsOf(hops, relays))
    ensures var before := HopsOf(hops, relays[..|relays| - 1]);
            var last := hops[relays[|relays| - 1]];
            LoopFree(before) && (last != ANON ==> last !in [ANON] + before)
  {
    var all, before := HopsOf(hops, relays), HopsOf(hops, relays[..|relays| - 1]);
    var last := hops[relays[|relays| - 1]];
    assert all[|before|] == last && forall i :: 0 <= i < |before| ==> before[i] == all[i];
    forall h | h in before && last != ANON
      ensures h != last
    {
      var i :| 0 <= i < |before| && before[i] == h;
      assert all[i] == h;
    }
  }

  /** And every way through the network without a loop can be taken: there is a run after
      which the last relay stores the path that came through the others. */
  lemma {:induction false} EveryWayIsOpen(start: Network, relays: seq<RelayId>, first: Cost)
    returns (steps: seq<Step>, e: Kept)
    requires relays != [] && (forall r :: r in relays ==> r in start.hops) && LoopFree(HopsOf(start.hops, relays))
    requires NetworkOk(start)
    ensures e in Run(start, steps).stored && e.relay == relays[|relays| - 1]
    ensures CameThrough(start, relays, first, e.path, e.cost)
    decreases |relays|
  {
    var last := relays[|relays| - 1];
    if |relays| == 1 {
      steps, e := [Originate(last, first)], Kept(last, [ANON], first);
      assert Run(Apply(start, steps[0]), []) == Apply(start, steps[0]);
      assert HopsOf(start.hops, relays[..0]) == [];
    } else {
      var before := relays[..|relays| - 1];
      LastHopIsNew(start.hops, relays);
      var steps', e' := EveryWayIsOpen(start, before, first);
      var net := Run(start, steps');
      RunKeepsOk(start, steps');
      hide NetworkOk, Run, LoopFree;
      var path := e'.path + [net.hops[e'.relay]];
      assert path == [ANON] + HopsOf(start.hops, before);
      assert forall h :: h in e'.path ==> h in path;
      assert path[|path| - 1] == net.hops[e'.relay];
      Passed(net, e', last);
      SameLinkSum(start, net, relays);
      steps := steps' + [Advertise(e', last), Receive(Message(e'.relay, last, path, e'.cost), {})];
      e := Kept(last, path, ClusterAddCost(e'.cost, LinkCost(net, e'.relay, last)));
      RunTwice(start, steps', steps[|steps'|..]);
    }
  }

  /** Distinct members of a set are no more than the set. */
  lemma {:induction false} DistinctFit(p: Path, values: set<nat>)
    requires (forall i :: 0 <= i < |p| ==> p[i] in values) && forall i, j :: 0 <= i < j < |p| ==> p[i] != p[j]
    ensures |p| <= |values|
  {
    if p != [] {
      assert forall i :: 0 <= i < |p| - 1 ==> p[1..][i] == p[i + 1];
      DistinctFit(p[1..], values - {p[0]});
    }
  }

  lemma {:induction false} SubsetSize(a: set<nat>, b: set<nat>)
    requires a <= b
    ensures |a| <= |b|
    decreases a
  {
    if a != {} {
      var x :| x in a;
      SubsetSize(a - {x}, b - {x});
    }
  }

  lemma ValuesFit(hops: map<RelayId, nat>)
    ensures |hops.Values| <= |hops|
    decreases |hops|
  {
    if hops != map[] {
      var r :| r in hops;
      var rest := hops - {r};
      ValuesFit(rest);
      forall v | v in hops.Values
        ensures v in rest.Values + {hops[r]}
      {
        var k :| k in hops && hops[k] == v;
        assert k != r ==> k in rest && rest[k] == v;
      }
      assert hops.Values <= rest.Values + {hops[r]};
      SubsetSize(hops.Values, rest.Values + {hops[r]});
    } else {
      assert hops.Values == {};
    }
  }

  /** When every relay has a Hop ID, paths are bounded by the number of relays, on
      every run: advertisements cannot circulate. */
  lemma PathsAreBounded(hops: map<RelayId, nat>, links: map<(RelayId, RelayId), Cost>, steps: seq<Step>)
    requires ANON !in hops.Values
    ensures var net := Run(Network(hops, links, {}, {}), steps);
            && (forall m :: m in net.inFlight ==> |m.path| <= |hops| + 1)
            && (forall e :: e in net.stored ==> |e.path| <= |hops|)
  {
    var start := Network(hops, links, {}, {});
    var net := Run(start, steps);
    RunKeepsOk(start, steps);
    ValuesFit(hops);
    forall m | m in net.inFlight
      ensures |m.path| <= |hops| + 1
    {
      PathFits(net, m.path, hops.Values);
    }
    forall e | e in net.stored
      ensures |e.path| <= |hops|
    {
      PathFits(net, e.path, hops.Values - {hops[e.relay]});
    }
  }

  lemma PathFits(net: Network, p: Path, values: set<nat>)
    requires LoopFree(p) && FromNetwork(net, p) && ANON !in net.hops.Values
    requires forall i :: 0 < i < |p| ==> p[i] in values
    ensures |p| <= |values| + 1
  {
    var tail := p[1..];
    assert forall i :: 0 <= i < |tail| ==> tail[i] == p[i + 1] && tail[i] != ANON;
    assert forall i, j :: 0 <= i < j < |tail| ==> tail[i] != tail[j];
    DistinctFit(tail, values);
  }
}
