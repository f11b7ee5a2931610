/** SUBSCRIBEs that wait for their track to be published, kept in a tree by
    namespace. The tree refines a multiset of (track, waiter) pairs. */
module Rendezvous {
  import opened Names

  type Waiter = nat

  datatype Node = Node(children: map<Bytes, Node>, waitersByTrack: map<Bytes, seq<Waiter>>) {
    predicate Empty() {
      children == map[] && waitersByTrack == map[]
    }
  }

  const EMPTY := Node(map[], map[])

  /** The waiters parked on a track below this node. */
  function Parked(n: Node, ns: Namespace, track: Bytes): seq<Waiter>
    decreases |ns|
  {
    if ns == [] then if track in n.waitersByTrack then n.waitersByTrack[track] else []
    else if ns[0] in n.children then Parked(n.children[ns[0]], ns[1..], track)
    else []
  }

  /** No empty node below this one, and no empty waiter list. */
  ghost predicate Compact(n: Node) {
    && (forall k :: k in n.children ==> !n.children[k].Empty() && Compact(n.children[k]))
    && (forall t :: t in n.waitersByTrack ==> n.waitersByTrack[t] != [])
  }

  /** A node that is not empty has a waiter somewhere below it. */
  lemma {:induction false} CompactHasWaiter(n: Node) returns (ns: Namespace, track: Bytes)
    requires Compact(n) && !n.Empty()
    ensures Parked(n, ns, track) != []
  {
    if n.waitersByTrack != map[] {
      track :| track in n.waitersByTrack;
      ns := [];
    } else {
      var k :| k in n.children;
      var rest;
      rest, track := CompactHasWaiter(n.children[k]);
      ns := [k] + rest;
      assert ns[1..] == rest;
    }
  }

  lemma {:induction false} EmptyParksNothing(ns: Namespace, track: Bytes)
    ensures Parked(EMPTY, ns, track) == []
  {
  }

  // --- Adding --------------------------------------------------------------------

  function AddAt(n: Node, ns: Namespace, track: Bytes, w: Waiter): Node
    decreases |ns|
  {
    if ns == [] then
      n.(waitersByTrack := n.waitersByTrack[track := Parked(n, [], track) + [w]])
    else
      var child := if ns[0] in n.children then n.children[ns[0]] else EMPTY;
      n.(children := n.children[ns[0] := AddAt(child, ns[1..], track, w)])
  }

  lemma {:induction false} AddAtParks(n: Node, ns: Namespace, track: Bytes, w: Waiter, ns': Namespace, track': Bytes)
    ensures Parked(AddAt(n, ns, track, w), ns', track') ==
            Parked(n, ns', track') + (if ns' == ns && track' == track then [w] else [])
    decreases |ns|
  {
    if ns != [] && ns' != [] && ns[0] == ns'[0] {
      var child := if ns[0] in n.children then n.children[ns[0]] else EMPTY;
      AddAtParks(child, ns[1..], track, w, ns'[1..], track');
      EmptyParksNothing(ns'[1..], track');
      assert ns == [ns[0]] + ns[1..] && ns' == [ns'[0]] + ns'[1..];
    }
  }

  lemma {:induction false} AddAtCompact(n: Node, ns: Namespace, track: Bytes, w: Waiter)
    requires Compact(n)
    ensures Compact(AddAt(n, ns, track, w)) && !AddAt(n, ns, track, w).Empty()
    decreases |ns|
  {
    if ns != [] {
      var child := if ns[0] in n.children then n.children[ns[0]] else EMPTY;
      AddAtCompact(child, ns[1..], track, w);
      assert ns[0] in AddAt(n, ns, track, w).children;
    } else {
      assert track in AddAt(n, ns, track, w).waitersByTrack;
    }
  }

  // --- Changing one node and pruning ------------------------------------------------

  function PutChild(n: Node, key: Bytes, child: Node): Node {
    n.(children := if child.Empty() then n.children - {key} else n.children[key := child])
  }

  /** The node at ns is changed, and ancestors left empty disappear. */
  function ApplyAt(n: Node, ns: Namespace, onNode: Node -> Node): Node
    decreases |ns|
  {
    if ns == [] then onNode(n)
    else if ns[0] !in n.children then n
    else PutChild(n, ns[0], ApplyAt(n.children[ns[0]], ns[1..], onNode))
  }

  lemma {:induction false} ApplyAtCompact(n: Node, ns: Namespace, onNode: Node -> Node)
    requires Compact(n) && forall m: Node :: Compact(m) ==> Compact(onNode(m))
    ensures Compact(ApplyAt(n, ns, onNode))
    decreases |ns|
  {
    if ns != [] && ns[0] in n.children {
      ApplyAtCompact(n.children[ns[0]], ns[1..], onNode);
    }
  }

  /** Nothing outside the namespace is touched; inside, the changed node decides. */
  lemma {:induction false} ApplyAtParks(n: Node, ns: Namespace, onNode: Node -> Node, ns': Namespace, track: Bytes)
    requires onNode(EMPTY) == EMPTY
    ensures !(ns <= ns') ==> Parked(ApplyAt(n, ns, onNode), ns', track) == Parked(n, ns', track)
    ensures ns <= ns' ==> Parked(ApplyAt(n, ns, onNode), ns', track) == Parked(onNode(NodeAt(n, ns)), ns'[|ns|..], track)
    decreases |ns|
  {
    if ns != [] {
      if ns[0] !in n.children {
        if ns <= ns' {
          EmptyParksNothing(ns'[|ns|..], track);
        }
      } else if ns' != [] && ns'[0] == ns[0] {
        var child := ApplyAt(n.children[ns[0]], ns[1..], onNode);
        ApplyAtParks(n.children[ns[0]], ns[1..], onNode, ns'[1..], track);
        if child.Empty() {
          assert child == EMPTY;
          EmptyParksNothing(ns'[1..], track);
        }
        assert ns <= ns' <==> ns[1..] <= ns'[1..];
        assert ns <= ns' ==> ns'[1..][|ns| - 1..] == ns'[|ns|..];
      }
    } else {
      assert ns'[0..] == ns';
    }
  }

  function NodeAt(n: Node, ns: Namespace): Node
    decreases |ns|
  {
    if ns == [] then n
    else if ns[0] in n.children then NodeAt(n.children[ns[0]], ns[1..])
    else EMPTY
  }

  lemma {:induction false} NodeAtParks(n: Node, ns: Namespace, rest: Namespace, track: Bytes)
    ensures Parked(NodeAt(n, ns), rest, track) == Parked(n, ns + rest, track)
    decreases |ns|
  {
    if ns == [] {
      assert ns + rest == rest;
    } else {
      assert (ns + rest)[1..] == ns[1..] + rest;
      if ns[0] in n.children {
        NodeAtParks(n.children[ns[0]], ns[1..], rest, track);
      } else {
        EmptyParksNothing(rest, track);
      }
    }
  }

  // --- What the operations do at their node ---------------------------------------------

  function RemoveAll(s: seq<Waiter>, w: Waiter): (r: seq<Waiter>)
    ensures w !in r
    ensures forall v :: v != w ==> multiset(r)[v] == multiset(s)[v]
  {
    if s == [] then []
    else
      assert s == [s[0]] + s[1..];
      if s[0] == w then RemoveAll(s[1..], w) else [s[0]] + RemoveAll(s[1..], w)
  }

  function EraseIn(n: Node, track: Bytes, w: Waiter): Node {
    if track !in n.waitersByTrack then n
    else
      var rest := RemoveAll(n.waitersByTrack[track], w);
      n.(waitersByTrack := if rest == [] then n.waitersByTrack - {track} else n.waitersByTrack[track := rest])
  }

  function TakeIn(n: Node, track: Bytes): Node {
    n.(waitersByTrack := n.waitersByTrack - {track})
  }

  lemma EraseInParks(n: Node, track: Bytes, w: Waiter, ns: Namespace, track': Bytes)
    ensures Parked(EraseIn(n, track, w), ns, track') ==
            if ns == [] && track' == track then RemoveAll(Parked(n, [], track), w) else Parked(n, ns, track')
  {
  }

  lemma TakeInParks(n: Node, track: Bytes, ns: Namespace, track': Bytes)
    ensures Parked(TakeIn(n, track), ns, track') == if ns == [] && track' == track then [] else Parked(n, ns, track')
  {
  }

  // --- Collecting a subtree ------------------------------------------------------------

  /** out holds each waiter below n, under the name it is parked on, as often as it
      is parked there. */
  ghost predicate Collects(n: Node, at: Namespace, out: multiset<(FullTrackName, Waiter)>) {
    forall f: FullTrackName, w: Waiter ::
      out[(f, w)] == if at <= f.ns then multiset(Parked(n, f.ns[|at|..], f.track))[w] else 0
  }

  function Tagged(f: FullTrackName, ws: seq<Waiter>): (r: seq<(FullTrackName, Waiter)>)
    ensures forall g: FullTrackName, w: Waiter :: multiset(r)[(g, w)] == if g == f then multiset(ws)[w] else 0
  {
    if ws == [] then []
    else
      assert ws == [ws[0]] + ws[1..];
      [(f, ws[0])] + Tagged(f, ws[1..])
  }

  /** The waiters of one node alone. */
  method CollectOwn(n: Node, at: Namespace) returns (out: seq<(FullTrackName, Waiter)>)
    ensures forall f: FullTrackName, w: Waiter ::
              multiset(out)[(f, w)] == if f.ns == at then multiset(Parked(n, [], f.track))[w] else 0
  {
    out := [];
    var tracks := n.waitersByTrack.Keys;
    while tracks != {}
      invariant tracks <= n.waitersByTrack.Keys
      invariant forall f: FullTrackName, w: Waiter ::
                  multiset(out)[(f, w)] ==
                  if f.ns == at && f.track !in tracks then multiset(Parked(n, [], f.track))[w] else 0
      decreases |tracks|
    {
      var t :| t in tracks;
      out := out + Tagged(FullTrackName(at, t), n.waitersByTrack[t]);
      tracks := tracks - {t};
    }
  }

  /** Everything below a node; in which order children come does not matter. */
  method CollectSubtree(n: Node, at: Namespace) returns (out: seq<(FullTrackName, Waiter)>)
    ensures Collects(n, at, multiset(out))
    decreases n
  {
    out := CollectOwn(n, at);
    var keys := n.children.Keys;
    while keys != {}
      invariant keys <= n.children.Keys
      invariant forall f: FullTrackName, w: Waiter ::
                  multiset(out)[(f, w)] ==
                  if at <= f.ns && (f.ns == at || f.ns[|at|] !in keys) then multiset(Parked(n, f.ns[|at|..], f.track))[w] else 0
      decreases |keys|
    {
      var k :| k in keys;
      var below := CollectSubtree(n.children[k], at + [k]);
      ChildCollects(n, at, k, multiset(below));
      out := out + below;
      keys := keys - {k};
    }
  }

  lemma ChildCollects(n: Node, at: Namespace, k: Bytes, out: multiset<(FullTrackName, Waiter)>)
    requires k in n.children && Collects(n.children[k], at + [k], out)
    ensures forall f: FullTrackName, w: Waiter ::
              out[(f, w)] ==
              if at <= f.ns && f.ns != at && f.ns[|at|] == k then multiset(Parked(n, f.ns[|at|..], f.track))[w] else 0
  {
    forall f: FullTrackName, w: Waiter
      ensures out[(f, w)] ==
              if at <= f.ns && f.ns != at && f.ns[|at|] == k then multiset(Parked(n, f.ns[|at|..], f.track))[w] else 0
    {
      if at + [k] <= f.ns {
        assert f.ns[|at|..][1..] == f.ns[|at| + 1..];
        assert at <= f.ns && f.ns[|at|] == k;
      }
    }
  }

  // --- The walk down and back up ---------------------------------------------------------

  /** The tree that results from putting x back at the end of a walked path. */
  ghost function Rebuild(path: seq<(Node, Bytes)>, x: Node): Node {
    if path == [] then x
    else
      var last := path[|path| - 1];
      Rebuild(path[..|path| - 1], PutChild(last.0, last.1, x))
  }

  /** Remembers the path down, changes the node if the namespace exists, and prunes
      on the way back. */
  method ApplyAtNamespaceNode(root: Node, ns: Namespace, onNode: Node -> Node) returns (r: Node)
    ensures r == ApplyAt(root, ns, onNode)
  {
    var node, path: seq<(Node, Bytes)>, i := root, [], 0;
    while i < |ns| && ns[i] in node.children
      invariant i <= |ns|
      invariant ApplyAt(root, ns, onNode) == Rebuild(path, ApplyAt(node, ns[i..], onNode))
    {
      ghost var deeper := path + [(node, ns[i])];
      assert deeper[..|deeper| - 1] == path && ns[i..][1..] == ns[i + 1..];
      path := path + [(node, ns[i])];
      node := node.children[ns[i]];
      i := i + 1;
    }
    if i == |ns| {
      node := onNode(node);
    }
    r := Reassemble(path, node);
  }

  lemma AddAtNotEmpty(n: Node, ns: Namespace, track: Bytes, w: Waiter)
    ensures !AddAt(n, ns, track, w).Empty()
  {
    if ns == [] {
      assert track in AddAt(n, ns, track, w).waitersByTrack;
    } else {
      assert ns[0] in AddAt(n, ns, track, w).children;
    }
  }

  /** Walks down, creating the nodes that are missing, and parks the waiter. */
  method Park(root: Node, ns: Namespace, track: Bytes, w: Waiter) returns (r: Node)
    ensures r == AddAt(root, ns, track, w)
  {
    var node, path: seq<(Node, Bytes)> := root, [];
    for i := 0 to |ns|
      invariant AddAt(root, ns, track, w) == Rebuild(path, AddAt(node, ns[i..], track, w))
    {
      var child := if ns[i] in node.children then node.children[ns[i]] else EMPTY;
      ghost var deeper := path + [(node, ns[i])];
      assert deeper[..|deeper| - 1] == path && ns[i..][1..] == ns[i + 1..];
      AddAtNotEmpty(child, ns[i + 1..], track, w);
      path := path + [(node, ns[i])];
      node := child;
    }
    var parked := if track in node.waitersByTrack then node.waitersByTrack[track] else [];
    node := node.(waitersByTrack := node.waitersByTrack[track := parked + [w]]);
    r := Reassemble(path, node);
  }

  /** Puts a changed node back under its ancestors, dropping what became empty. */
  method Reassemble(walked: seq<(Node, Bytes)>, changed: Node) returns (r: Node)
    ensures r == Rebuild(walked, changed)
  {
    var path := walked;
    r := changed;
    while path != []
      invariant Rebuild(path, r) == Rebuild(walked, changed)
      decreases |path|
    {
      var last := path[|path| - 1];
      r := PutChild(last.0, last.1, r);
      path := path[..|path| - 1];
    }
  }

  // --- What each operation leaves parked ------------------------------------------------

  function Erasing(track: Bytes, w: Waiter): Node -> Node {
    n => EraseIn(n, track, w)
  }

  function Taking(track: Bytes): Node -> Node {
    n => TakeIn(n, track)
  }

  function Clearing(): Node -> Node {
    n => EMPTY
  }

  lemma ErasingParks(root: Node, ftn: FullTrackName, w: Waiter, f: FullTrackName)
    ensures Parked(ApplyAt(root, ftn.ns, Erasing(ftn.track, w)), f.ns, f.track) ==
            if f == ftn then RemoveAll(Parked(root, f.ns, f.track), w) else Parked(root, f.ns, f.track)
  {
    ApplyAtParks(root, ftn.ns, Erasing(ftn.track, w), f.ns, f.track);
    if ftn.ns <= f.ns {
      var rest := f.ns[|ftn.ns|..];
      assert f.ns == ftn.ns + rest;
      NodeAtParks(root, ftn.ns, rest, f.track);
      EraseInParks(NodeAt(root, ftn.ns), ftn.track, w, rest, f.track);
    }
  }

  lemma ErasingCompact(root: Node, ftn: FullTrackName, w: Waiter)
    requires Compact(root)
    ensures Compact(ApplyAt(root, ftn.ns, Erasing(ftn.track, w)))
  {
    ApplyAtCompact(root, ftn.ns, Erasing(ftn.track, w));
  }

  lemma TakingParks(root: Node, ftn: FullTrackName, f: FullTrackName)
    ensures Parked(ApplyAt(root, ftn.ns, Taking(ftn.track)), f.ns, f.track) ==
            if f == ftn then [] else Parked(root, f.ns, f.track)
  {
    ApplyAtParks(root, ftn.ns, Taking(ftn.track), f.ns, f.track);
    if ftn.ns <= f.ns {
      var rest := f.ns[|ftn.ns|..];
      assert f.ns == ftn.ns + rest;
      NodeAtParks(root, ftn.ns, rest, f.track);
      TakeInParks(NodeAt(root, ftn.ns), ftn.track, rest, f.track);
    }
  }

  lemma ClearingParks(root: Node, ns: Namespace, f: FullTrackName)
    ensures Parked(ApplyAt(root, ns, Clearing()), f.ns, f.track) ==
            if ns <= f.ns then [] else Parked(root, f.ns, f.track)
    ensures ns <= f.ns ==> Parked(NodeAt(root, ns), f.ns[|ns|..], f.track) == Parked(root, f.ns, f.track)
  {
    ApplyAtParks(root, ns, Clearing(), f.ns, f.track);
    if ns <= f.ns {
      var rest := f.ns[|ns|..];
      assert f.ns == ns + rest;
      NodeAtParks(root, ns, rest, f.track);
      EmptyParksNothing(rest, f.track);
    }
  }

  // --- The tree ----------------------------------------------------------------------------

  type Parkings = multiset<(FullTrackName, Waiter)>

  /** Every waiter ever added is either still parked where it was added or has left. */
  ghost predicate Conserved(root: Node, added: Parkings, gone: Parkings) {
    forall f: FullTrackName, w: Waiter ::
      added[(f, w)] == multiset(Parked(root, f.ns, f.track))[w] + gone[(f, w)]
  }

  class PendingRendezvousTree {
    var root: Node
    ghost var added: Parkings
    ghost var gone: Parkings

    ghost predicate Valid()
      reads this
    {
      Compact(root) && Conserved(root, added, gone)
    }

    constructor ()
      ensures Valid() && added == multiset{} && gone == multiset{}
    {
      root := EMPTY;
      added := multiset{};
      gone := multiset{};
      new;
      forall f: FullTrackName, w: Waiter
        ensures added[(f, w)] == multiset(Parked(root, f.ns, f.track))[w] + gone[(f, w)]
      {
        EmptyParksNothing(f.ns, f.track);
      }
    }

    method AddWaiter(ftn: FullTrackName, w: Waiter)
      requires Valid()
      modifies this
      ensures Valid()
      ensures added == old(added) + multiset{(ftn, w)} && gone == old(gone)
      ensures forall f: FullTrackName ::
                Parked(root, f.ns, f.track) == old(Parked(root, f.ns, f.track)) + if f == ftn then [w] else []
    {
      hide AddAt, Parked;
      forall f: FullTrackName
        ensures Parked(AddAt(root, ftn.ns, ftn.track, w), f.ns, f.track) ==
                Parked(root, f.ns, f.track) + if f == ftn then [w] else []
      {
        AddAtParks(root, ftn.ns, ftn.track, w, f.ns, f.track);
      }
      AddAtCompact(root, ftn.ns, ftn.track, w);
      root := Park(root, ftn.ns, ftn.track, w);
      added := added + multiset{(ftn, w)};
    }

    method EraseWaiter(ftn: FullTrackName, w: Waiter)
      requires Valid()
      modifies this
      ensures Valid() && added == old(added)
      ensures gone == old(gone)[(ftn, w) := old(added)[(ftn, w)]]
      ensures forall f: FullTrackName ::
                Parked(root, f.ns, f.track) ==
                if f == ftn then RemoveAll(old(Parked(root, f.ns, f.track)), w) else old(Parked(root, f.ns, f.track))
    {
      hide ApplyAt, EraseIn, Parked;
      ErasingCompact(root, ftn, w);
      forall f: FullTrackName
        ensures Parked(ApplyAt(root, ftn.ns, Erasing(ftn.track, w)), f.ns, f.track) ==
                if f == ftn then RemoveAll(Parked(root, f.ns, f.track), w) else Parked(root, f.ns, f.track)
      {
        ErasingParks(root, ftn, w, f);
      }
      root := ApplyAtNamespaceNode(root, ftn.ns, Erasing(ftn.track, w));
      gone := gone[(ftn, w) := added[(ftn, w)]];
    }

    /** Wakes the waiters of exactly this track, in the order they were parked. */
    method WakeForTrack(ftn: FullTrackName) returns (toWake: seq<Waiter>)
      requires Valid()
      modifies this
      ensures Valid() && added == old(added)
      ensures toWake == old(Parked(root, ftn.ns, ftn.track))
      ensures gone == old(gone) + multiset(Tagged(ftn, toWake))
      ensures forall f: FullTrackName ::
                Parked(root, f.ns, f.track) == if f == ftn then [] else old(Parked(root, f.ns, f.track))
    {
      hide ApplyAt, Parked;
      ApplyAtCompact(root, ftn.ns, Taking(ftn.track));
      assert ftn.ns + [] == ftn.ns;
      NodeAtParks(root, ftn.ns, [], ftn.track);
      forall f: FullTrackName
        ensures Parked(ApplyAt(root, ftn.ns, Taking(ftn.track)), f.ns, f.track) ==
                if f == ftn then [] else Parked(root, f.ns, f.track)
      {
        TakingParks(root, ftn, f);
      }
      toWake := Parked(NodeAt(root, ftn.ns), [], ftn.track);
      root := ApplyAtNamespaceNode(root, ftn.ns, Taking(ftn.track));
      gone := gone + multiset(Tagged(ftn, toWake));
    }

    /** Wakes every waiter under the namespace, each exactly as often as it was parked,
        and no other. */
    method WakeUnderNamespace(ns: Namespace) returns (toWake: seq<(FullTrackName, Waiter)>)
      requires Valid()
      modifies this
      ensures Valid() && added == old(added)
      ensures forall f: FullTrackName, w: Waiter ::
                multiset(toWake)[(f, w)] == if ns <= f.ns then multiset(old(Parked(root, f.ns, f.track)))[w] else 0
      ensures gone == old(gone) + multiset(toWake)
      ensures forall f: FullTrackName ::
                Parked(root, f.ns, f.track) == if ns <= f.ns then [] else old(Parked(root, f.ns, f.track))
    {
      hide ApplyAt, Parked;
      ApplyAtCompact(root, ns, Clearing());
      forall f: FullTrackName
        ensures Parked(ApplyAt(root, ns, Clearing()), f.ns, f.track) ==
                if ns <= f.ns then [] else Parked(root, f.ns, f.track)
        ensures ns <= f.ns ==> Parked(NodeAt(root, ns), f.ns[|ns|..], f.track) == Parked(root, f.ns, f.track)
      {
        ClearingParks(root, ns, f);
      }
      toWake := CollectSubtree(NodeAt(root, ns), ns);
      root := ApplyAtNamespaceNode(root, ns, Clearing());
      gone := gone + multiset(toWake);
    }

    /** The tree has no node left exactly when nobody waits. */
    method Empty() returns (b: bool)
      requires Valid()
      ensures b <==> forall f: FullTrackName :: Parked(root, f.ns, f.track) == []
      ensures b <==> added == gone
    {
      b := root.Empty();
      if b {
        assert root == EMPTY;
        forall f: FullTrackName
          ensures Parked(root, f.ns, f.track) == []
        {
          EmptyParksNothing(f.ns, f.track);
        }
        forall p: (FullTrackName, Waiter)
          ensures added[p] == gone[p]
        {
          assert p == (p.0, p.1);
        }
        assert added == gone;
      } else {
        ghost var ns, track := CompactHasWaiter(root);
        ghost var f := FullTrackName(ns, track);
        ghost var w := Parked(root, f.ns, f.track)[0];
        assert multiset(Parked(root, f.ns, f.track))[w] > 0;
        assert added[(f, w)] != gone[(f, w)];
      }
    }
  }
}
