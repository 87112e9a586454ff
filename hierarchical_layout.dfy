/**
 * The hierarchical layout of the tree builder. It builds a parent→children
 * map and a symmetric spouse map from the relationships, takes as roots
 * the nodes that are no parent relationship's child, and then places nodes
 * depth first from each root, guarded by a `visited` set: roots 400 apart
 * on row 0, the children of a node at (x, y) on row y + 200 spread 300
 * apart and centred under x, and every not yet visited spouse at
 * (x + 250, y). Positions are whole numbers.
 *
 * The functions below define the result (`HierarchicalLayout`); the class
 * `Placement` and the method `ApplyHierarchicalLayout` compute it the way
 * the application does, in place on an array of nodes.
 */
module HierarchicalLayout {
  import opened Wrappers
  import opened FamilyTypes
  import opened Lists

  datatype Position = Position(x: int, y: int)

  /**
   * What a canvas node shows: a member, the "You" placeholder of an empty
   * tree, or a relative just added on the canvas (only its name is set).
   */
  datatype NodeData = MemberData(member: Member) | Placeholder(name: string) | NewRelativeData(name: string)

  datatype FlowNode = FlowNode(id: Id, position: Position, data: NodeData)

  // ---------------------------------------------------------------------
  // The relationship maps

  datatype LayoutMaps = LayoutMaps(children: map<Id, seq<Id>>, spouses: map<Id, seq<Id>>)

  /** The list stored under `k`, or the empty list when there is none. */
  function Lookup(m: map<Id, seq<Id>>, k: Id): seq<Id> {
    if k in m then m[k] else []
  }

  /** Appends `v` to the list under `k`, starting an empty list when `k` has none. */
  function Push(m: map<Id, seq<Id>>, k: Id, v: Id): map<Id, seq<Id>> {
    m[k := Lookup(m, k) + [v]]
  }

  /**
   * The maps after one pass over the relationships: a parent
   * relationship a→b adds b to a's children, a spouse relationship adds
   * each partner to the other's spouses, a sibling relationship adds nothing.
   */
  function MapsOf(rels: seq<Relationship>): LayoutMaps {
    if rels == [] then LayoutMaps(map[], map[])
    else
      var g := MapsOf(rels[..|rels| - 1]);
      var rel := rels[|rels| - 1];
      match rel.kind
      case Parent => g.(children := Push(g.children, rel.aId, rel.bId))
      case Spouse => g.(spouses := Push(Push(g.spouses, rel.aId, rel.bId), rel.bId, rel.aId))
      case Sibling => g
  }

  /** The ids that are the child end of some parent relationship. */
  function ChildIdSet(rels: seq<Relationship>): set<Id> {
    set rel | rel in rels && rel.kind == Parent :: rel.bId
  }

  function IsRoot(childIds: set<Id>): FlowNode -> bool {
    (n: FlowNode) => n.id !in childIds
  }

  /** The nodes, in order, whose id is nobody's child. */
  function RootNodes(nodes: seq<FlowNode>, rels: seq<Relationship>): seq<FlowNode> {
    Filter(nodes, IsRoot(ChildIdSet(rels)))
  }

  /** Every id the placement can be asked about: the nodes' ids and every parent relationship's child. */
  function Universe(nodes: seq<FlowNode>, rels: seq<Relationship>): set<Id> {
    (set n | n in nodes :: n.id) + ChildIdSet(rels)
  }

  ghost predicate ChildrenWithin(maps: LayoutMaps, U: set<Id>) {
    forall a, c :: c in Lookup(maps.children, a) ==> c in U
  }

  // ---------------------------------------------------------------------
  // Placement, as functions of the state it changes

  /** The nodes being positioned and the ids already visited. */
  datatype LayoutState = LayoutState(nodes: seq<FlowNode>, visited: set<Id>)

  /** The index of the first node with that id, as the lookup by id finds it. */
  function IndexOf(nodes: seq<FlowNode>, id: Id): (r: Option<nat>)
    ensures r.Some? ==> r.value < |nodes| && nodes[r.value].id == id &&
                        forall k :: 0 <= k < r.value ==> nodes[k].id != id
    ensures r.None? ==> forall k :: 0 <= k < |nodes| ==> nodes[k].id != id
  {
    if nodes == [] then None
    else if nodes[0].id == id then Some(0)
    else match IndexOf(nodes[1..], id)
      case None => None
      case Some(k) => Some(k + 1)
  }

  /** The k-th node moved to `p`; the rest unchanged. */
  function Moved(nodes: seq<FlowNode>, k: nat, p: Position): seq<FlowNode>
    requires k < |nodes|
  {
    nodes[k := nodes[k].(position := p)]
  }

  /** The x of the j-th of k children of a node at x: spread 300 apart, centred under x. */
  function ChildSlotX(x: int, k: int, j: int): int {
    x - (k - 1) * 150 + 300 * j
  }

  /** The children's row is centred under the parent: the j-th and the j-th from the end are mirror images about x. */
  lemma ChildRowCentred(x: int, k: int, j: int)
    requires 0 <= j < k
    ensures ChildSlotX(x, k, j) - x == x - ChildSlotX(x, k, k - 1 - j)
  {
  }

  /**
   * Placement from one id: nothing if `id` was visited; otherwise mark
   * it visited, and if a node has that id, move it to (x, y), place its
   * children one row down, then move each spouse that is still unvisited
   * to (x + 250, y) without marking it.
   */
  function PlaceNode(maps: LayoutMaps, U: set<Id>, s: LayoutState, id: Id, x: int, y: int): (r: LayoutState)
    requires id in U && ChildrenWithin(maps, U)
    ensures s.visited <= r.visited
    decreases U - s.visited, 0, 0
  {
    if id in s.visited then s
    else
      var marked := s.(visited := s.visited + {id});
      match IndexOf(s.nodes, id)
      case None => marked
      case Some(k) =>
        var placed := marked.(nodes := Moved(s.nodes, k, Position(x, y)));
        var children := Lookup(maps.children, id);
        var afterChildren := PlaceChildren(maps, U, placed, children, |children|, x, y + 200);
        PlaceSpouses(afterChildren, Lookup(maps.spouses, id), x + 250, y)
  }

  /** The first |cs| of the k children of a node at x, placed on row y one after another. */
  function PlaceChildren(maps: LayoutMaps, U: set<Id>, s: LayoutState, cs: seq<Id>, k: int, x: int, y: int): (r: LayoutState)
    requires ChildrenWithin(maps, U) && forall c :: c in cs ==> c in U
    ensures s.visited <= r.visited
    decreases U - s.visited, 1, |cs|
  {
    if cs == [] then s
    else
      var before := PlaceChildren(maps, U, s, cs[..|cs| - 1], k, x, y);
      PlaceNode(maps, U, before, cs[|cs| - 1], ChildSlotX(x, k, |cs| - 1), y)
  }

  /** Move each of `sps` that is not visited to (sx, sy); nothing is marked visited. */
  function PlaceSpouses(s: LayoutState, sps: seq<Id>, sx: int, sy: int): (r: LayoutState)
    ensures r.visited == s.visited
  {
    if sps == [] then s
    else
      var before := PlaceSpouses(s, sps[..|sps| - 1], sx, sy);
      var sp := sps[|sps| - 1];
      if sp in before.visited then before
      else match IndexOf(before.nodes, sp)
        case None => before
        case Some(k) => before.(nodes := Moved(before.nodes, k, Position(sx, sy)))
  }

  /** The roots, the i-th placed from (400·i, 0). */
  function PlaceRoots(maps: LayoutMaps, U: set<Id>, s: LayoutState, roots: seq<FlowNode>): (r: LayoutState)
    requires ChildrenWithin(maps, U) && forall n :: n in roots ==> n.id in U
    ensures s.visited <= r.visited
  {
    if roots == [] then s
    else
      var before := PlaceRoots(maps, U, s, roots[..|roots| - 1]);
      PlaceNode(maps, U, before, roots[|roots| - 1].id, 400 * (|roots| - 1), 0)
  }

  /** The layout of the whole node list: the roots placed left to right. */
  function HierarchicalLayout(nodes: seq<FlowNode>, rels: seq<Relationship>): seq<FlowNode> {
    var maps := MapsOf(rels);
    var U := Universe(nodes, rels);
    MapsChildrenWithin(rels, U);
    PlaceRoots(maps, U, LayoutState(nodes, {}), RootNodes(nodes, rels)).nodes
  }

  // ---------------------------------------------------------------------
  // Facts about the maps

  /** A parent relationship a→c is stored exactly as c among a's children. */
  lemma {:induction false} ChildEdgeIff(rels: seq<Relationship>, a: Id, c: Id)
    ensures c in Lookup(MapsOf(rels).children, a) <==>
            exists rel :: rel in rels && rel.kind == Parent && rel.aId == a && rel.bId == c
  {
    if rels != [] {
      var init := rels[..|rels| - 1];
      ChildEdgeIff(init, a, c);
      assert forall rel :: rel in rels <==> rel in init || rel == rels[|rels| - 1];
    }
  }

  /** A spouse relationship is stored in both directions, and nothing else reaches the spouse map. */
  lemma {:induction false} SpouseEdgeIff(rels: seq<Relationship>, u: Id, v: Id)
    ensures v in Lookup(MapsOf(rels).spouses, u) <==>
            exists rel :: rel in rels && rel.kind == Spouse &&
                          ((rel.aId == u && rel.bId == v) || (rel.bId == u && rel.aId == v))
  {
    if rels != [] {
      var init := rels[..|rels| - 1];
      SpouseEdgeIff(init, u, v);
      assert forall rel :: rel in rels <==> rel in init || rel == rels[|rels| - 1];
    }
  }

  lemma MapsChildrenWithin(rels: seq<Relationship>, U: set<Id>)
    requires ChildIdSet(rels) <= U
    ensures ChildrenWithin(MapsOf(rels), U)
  {
    forall a, c | c in Lookup(MapsOf(rels).children, a) ensures c in U {
      ChildEdgeIff(rels, a, c);
    }
  }

  function NotSibling(rel: Relationship): bool {
    rel.kind != Sibling
  }

  /** Sibling relationships do not reach the maps. */
  lemma {:induction false} MapsIgnoreSiblings(rels: seq<Relationship>)
    ensures MapsOf(rels) == MapsOf(Filter(rels, NotSibling))
  {
    if rels != [] {
      var init := rels[..|rels| - 1];
      MapsIgnoreSiblings(init);
      var f := Filter(init, NotSibling);
      if NotSibling(rels[|rels| - 1]) {
        assert (f + [rels[|rels| - 1]])[..|f|] == f;
      } else {
        assert f + [] == f;
      }
    }
  }

  /** Only parent and spouse relationships affect the layout: dropping the sibling ones changes nothing. */
  lemma LayoutIgnoresSiblings(nodes: seq<FlowNode>, rels: seq<Relationship>)
    ensures HierarchicalLayout(nodes, rels) == HierarchicalLayout(nodes, Filter(rels, NotSibling))
  {
    MapsIgnoreSiblings(rels);
    FilterMembership(rels, NotSibling);
    assert ChildIdSet(rels) == ChildIdSet(Filter(rels, NotSibling));
  }

  // ---------------------------------------------------------------------
  // What placement does to the node list

  /** `b` is `a` with at most some positions changed: same ids, same data, same order. */
  ghost predicate SameUpToPositions(a: seq<FlowNode>, b: seq<FlowNode>) {
    |a| == |b| && forall k :: 0 <= k < |a| ==> b[k] == a[k].(position := b[k].position)
  }

  /** Nodes whose id was already visited in `s` are unchanged in `r`. */
  ghost predicate Frozen(s: LayoutState, r: LayoutState) {
    |r.nodes| == |s.nodes| &&
    forall k :: 0 <= k < |s.nodes| && s.nodes[k].id in s.visited ==> r.nodes[k] == s.nodes[k]
  }

  /** `c` is some node's child in the parent→children map. */
  ghost predicate IsChild(maps: LayoutMaps, c: Id) {
    exists a :: c in Lookup(maps.children, a)
  }

  /** Visited, or a spouse of a visited id. */
  ghost predicate Touched(maps: LayoutMaps, visited: set<Id>, v: Id) {
    v in visited || exists u :: u in visited && v in Lookup(maps.spouses, u)
  }

  /** Only first nodes of their id move, and only touched ones. */
  ghost predicate MovesTouched(maps: LayoutMaps, s: LayoutState, r: LayoutState) {
    |r.nodes| == |s.nodes| &&
    forall k :: 0 <= k < |s.nodes| && r.nodes[k] != s.nodes[k] ==>
      IndexOf(s.nodes, s.nodes[k].id) == Some(k) && Touched(maps, r.visited, s.nodes[k].id)
  }

  /** A set of ids that contains the children of each of its members. */
  ghost predicate ChildClosed(maps: LayoutMaps, C: set<Id>) {
    forall a, c :: a in C && c in Lookup(maps.children, a) ==> c in C
  }

  lemma IndexOfIgnoresPositions(a: seq<FlowNode>, b: seq<FlowNode>, id: Id)
    requires SameUpToPositions(a, b)
    ensures IndexOf(a, id) == IndexOf(b, id)
  {
    assert forall k :: 0 <= k < |a| ==> a[k].id == b[k].id;
  }

  lemma SameUpToPositionsTrans(a: seq<FlowNode>, b: seq<FlowNode>, c: seq<FlowNode>)
    requires SameUpToPositions(a, b) && SameUpToPositions(b, c)
    ensures SameUpToPositions(a, c)
  {
  }

  /**
   * Spouse placement keeps ids and order, leaves visited ids alone, and
   * moves only the first node of an unvisited spouse id.
   */
  lemma {:induction false} PlaceSpousesShape(s: LayoutState, sps: seq<Id>, sx: int, sy: int)
    ensures var r := PlaceSpouses(s, sps, sx, sy);
      SameUpToPositions(s.nodes, r.nodes) && Frozen(s, r) &&
      forall k :: 0 <= k < |s.nodes| && r.nodes[k] != s.nodes[k] ==>
        IndexOf(s.nodes, s.nodes[k].id) == Some(k) && s.nodes[k].id in sps
  {
    if sps != [] {
      var init := sps[..|sps| - 1];
      var before := PlaceSpouses(s, init, sx, sy);
      PlaceSpousesShape(s, init, sx, sy);
      var sp := sps[|sps| - 1];
      if sp !in before.visited {
        IndexOfIgnoresPositions(s.nodes, before.nodes, sp);
      }
      assert forall v :: v in init ==> v in sps;
    }
  }

  /**
   * Placing a node keeps ids and order, never changes a node whose id was
   * already visited, and visits only the node itself and children.
   */
  lemma {:induction false} PlaceNodeShape(maps: LayoutMaps, U: set<Id>, s: LayoutState, id: Id, x: int, y: int)
    requires id in U && ChildrenWithin(maps, U)
    ensures var r := PlaceNode(maps, U, s, id, x, y);
      SameUpToPositions(s.nodes, r.nodes) && Frozen(s, r) &&
      forall v :: v in r.visited ==> v in s.visited || v == id || IsChild(maps, v)
    decreases U - s.visited, 0, 0
  {
    if id !in s.visited {
      var marked := s.(visited := s.visited + {id});
      match IndexOf(s.nodes, id)
      case None =>
      case Some(k) =>
        var placed := marked.(nodes := Moved(s.nodes, k, Position(x, y)));
        var children := Lookup(maps.children, id);
        PlaceChildrenShape(maps, U, placed, children, |children|, x, y + 200);
        var afterChildren := PlaceChildren(maps, U, placed, children, |children|, x, y + 200);
        PlaceSpousesShape(afterChildren, Lookup(maps.spouses, id), x + 250, y);
        SameUpToPositionsTrans(s.nodes, placed.nodes, afterChildren.nodes);
        var r := PlaceNode(maps, U, s, id, x, y);
        SameUpToPositionsTrans(s.nodes, afterChildren.nodes, r.nodes);
    }
  }

  lemma {:induction false} PlaceChildrenShape(maps: LayoutMaps, U: set<Id>, s: LayoutState, cs: seq<Id>, k: int, x: int, y: int)
    requires ChildrenWithin(maps, U) && forall c :: c in cs ==> c in U
    ensures var r := PlaceChildren(maps, U, s, cs, k, x, y);
      SameUpToPositions(s.nodes, r.nodes) && Frozen(s, r) &&
      forall v :: v in r.visited ==> v in s.visited || v in cs || IsChild(maps, v)
    decreases U - s.visited, 1, |cs|
  {
    if cs != [] {
      var init := cs[..|cs| - 1];
      var before := PlaceChildren(maps, U, s, init, k, x, y);
      PlaceChildrenShape(maps, U, s, init, k, x, y);
      PlaceNodeShape(maps, U, before, cs[|cs| - 1], ChildSlotX(x, k, |cs| - 1), y);
      SameUpToPositionsTrans(s.nodes, before.nodes, PlaceChildren(maps, U, s, cs, k, x, y).nodes);
      assert forall v :: v in init ==> v in cs;
    }
  }

  lemma {:induction false} PlaceRootsShape(maps: LayoutMaps, U: set<Id>, s: LayoutState, roots: seq<FlowNode>)
    requires ChildrenWithin(maps, U) && forall n :: n in roots ==> n.id in U
    ensures var r := PlaceRoots(maps, U, s, roots);
      SameUpToPositions(s.nodes, r.nodes) && Frozen(s, r) &&
      forall v :: v in r.visited ==> v in s.visited || (exists n :: n in roots && n.id == v) || IsChild(maps, v)
  {
    if roots != [] {
      var init := roots[..|roots| - 1];
      var before := PlaceRoots(maps, U, s, init);
      PlaceRootsShape(maps, U, s, init);
      PlaceNodeShape(maps, U, before, roots[|roots| - 1].id, 400 * (|roots| - 1), 0);
      SameUpToPositionsTrans(s.nodes, before.nodes, PlaceRoots(maps, U, s, roots).nodes);
      assert forall n :: n in init ==> n in roots;
    }
  }

  /** A node placed while unvisited ends at the position it was given. */
  lemma PlaceNodeSetsOwn(maps: LayoutMaps, U: set<Id>, s: LayoutState, id: Id, x: int, y: int, k: nat)
    requires id in U && ChildrenWithin(maps, U)
    requires id !in s.visited && IndexOf(s.nodes, id) == Some(k)
    ensures var r := PlaceNode(maps, U, s, id, x, y);
      k < |r.nodes| && r.nodes[k].position == Position(x, y) && id in r.visited
  {
    var marked := s.(visited := s.visited + {id});
    var placed := marked.(nodes := Moved(s.nodes, k, Position(x, y)));
    var children := Lookup(maps.children, id);
    PlaceChildrenShape(maps, U, placed, children, |children|, x, y + 200);
    var afterChildren := PlaceChildren(maps, U, placed, children, |children|, x, y + 200);
    PlaceSpousesShape(afterChildren, Lookup(maps.spouses, id), x + 250, y);
  }

  /** Placement moves only the first node of an id, and only if that id was visited or is a visited node's spouse. */
  lemma {:induction false} PlaceNodeMoves(maps: LayoutMaps, U: set<Id>, s: LayoutState, id: Id, x: int, y: int)
    requires id in U && ChildrenWithin(maps, U)
    ensures MovesTouched(maps, s, PlaceNode(maps, U, s, id, x, y))
    decreases U - s.visited, 0, 0
  {
    PlaceNodeShape(maps, U, s, id, x, y);
    if id !in s.visited {
      var marked := s.(visited := s.visited + {id});
      match IndexOf(s.nodes, id)
      case None =>
      case Some(k) =>
        var placed := marked.(nodes := Moved(s.nodes, k, Position(x, y)));
        var children := Lookup(maps.children, id);
        PlaceChildrenShape(maps, U, placed, children, |children|, x, y + 200);
        PlaceChildrenMoves(maps, U, placed, children, |children|, x, y + 200);
        var afterChildren := PlaceChildren(maps, U, placed, children, |children|, x, y + 200);
        PlaceSpousesShape(afterChildren, Lookup(maps.spouses, id), x + 250, y);
        var r := PlaceNode(maps, U, s, id, x, y);
        forall i | 0 <= i < |s.nodes| && r.nodes[i] != s.nodes[i]
          ensures IndexOf(s.nodes, s.nodes[i].id) == Some(i) && Touched(maps, r.visited, s.nodes[i].id)
        {
          IndexOfIgnoresPositions(s.nodes, placed.nodes, s.nodes[i].id);
          IndexOfIgnoresPositions(s.nodes, afterChildren.nodes, s.nodes[i].id);
          if r.nodes[i] != afterChildren.nodes[i] {
            assert id in r.visited && s.nodes[i].id in Lookup(maps.spouses, id);
          } else if afterChildren.nodes[i] != placed.nodes[i] {
            assert Touched(maps, afterChildren.visited, placed.nodes[i].id);
          }
        }
    }
  }

  lemma {:induction false} PlaceChildrenMoves(maps: LayoutMaps, U: set<Id>, s: LayoutState, cs: seq<Id>, k: int, x: int, y: int)
    requires ChildrenWithin(maps, U) && forall c :: c in cs ==> c in U
    ensures MovesTouched(maps, s, PlaceChildren(maps, U, s, cs, k, x, y))
    decreases U - s.visited, 1, |cs|
  {
    PlaceChildrenShape(maps, U, s, cs, k, x, y);
    if cs != [] {
      var init := cs[..|cs| - 1];
      var before := PlaceChildren(maps, U, s, init, k, x, y);
      PlaceChildrenShape(maps, U, s, init, k, x, y);
      PlaceChildrenMoves(maps, U, s, init, k, x, y);
      PlaceNodeMoves(maps, U, before, cs[|cs| - 1], ChildSlotX(x, k, |cs| - 1), y);
      var r := PlaceChildren(maps, U, s, cs, k, x, y);
      forall i | 0 <= i < |s.nodes| && r.nodes[i] != s.nodes[i]
        ensures IndexOf(s.nodes, s.nodes[i].id) == Some(i) && Touched(maps, r.visited, s.nodes[i].id)
      {
        IndexOfIgnoresPositions(s.nodes, before.nodes, s.nodes[i].id);
      }
    }
  }

  lemma {:induction false} PlaceRootsMoves(maps: LayoutMaps, U: set<Id>, s: LayoutState, roots: seq<FlowNode>)
    requires ChildrenWithin(maps, U) && forall n :: n in roots ==> n.id in U
    ensures MovesTouched(maps, s, PlaceRoots(maps, U, s, roots))
  {
    PlaceRootsShape(maps, U, s, roots);
    if roots != [] {
      var init := roots[..|roots| - 1];
      var before := PlaceRoots(maps, U, s, init);
      PlaceRootsShape(maps, U, s, init);
      PlaceRootsMoves(maps, U, s, init);
      PlaceNodeMoves(maps, U, before, roots[|roots| - 1].id, 400 * (|roots| - 1), 0);
      var r := PlaceRoots(maps, U, s, roots);
      forall i | 0 <= i < |s.nodes| && r.nodes[i] != s.nodes[i]
        ensures IndexOf(s.nodes, s.nodes[i].id) == Some(i) && Touched(maps, r.visited, s.nodes[i].id)
      {
        IndexOfIgnoresPositions(s.nodes, before.nodes, s.nodes[i].id);
      }
    }
  }

  /** Placement from `id` visits only ids of a child-closed set that contains `id`. */
  lemma {:induction false} PlaceNodeReach(maps: LayoutMaps, U: set<Id>, s: LayoutState, id: Id, x: int, y: int, C: set<Id>)
    requires id in U && ChildrenWithin(maps, U)
    requires id in C && ChildClosed(maps, C)
    ensures PlaceNode(maps, U, s, id, x, y).visited <= s.visited + C
    decreases U - s.visited, 0, 0
  {
    if id !in s.visited {
      var marked := s.(visited := s.visited + {id});
      match IndexOf(s.nodes, id)
      case None =>
      case Some(k) =>
        var placed := marked.(nodes := Moved(s.nodes, k, Position(x, y)));
        var children := Lookup(maps.children, id);
        PlaceChildrenReach(maps, U, placed, children, |children|, x, y + 200, C);
    }
  }

  lemma {:induction false} PlaceChildrenReach(maps: LayoutMaps, U: set<Id>, s: LayoutState, cs: seq<Id>, k: int, x: int, y: int, C: set<Id>)
    requires ChildrenWithin(maps, U) && forall c :: c in cs ==> c in U
    requires ChildClosed(maps, C) && forall c :: c in cs ==> c in C
    ensures PlaceChildren(maps, U, s, cs, k, x, y).visited <= s.visited + C
    decreases U - s.visited, 1, |cs|
  {
    if cs != [] {
      var init := cs[..|cs| - 1];
      var before := PlaceChildren(maps, U, s, init, k, x, y);
      assert forall c :: c in init ==> c in cs;
      PlaceChildrenReach(maps, U, s, init, k, x, y, C);
      PlaceNodeReach(maps, U, before, cs[|cs| - 1], ChildSlotX(x, k, |cs| - 1), y, C);
    }
  }

  lemma {:induction false} PlaceRootsReach(maps: LayoutMaps, U: set<Id>, s: LayoutState, roots: seq<FlowNode>, C: set<Id>)
    requires ChildrenWithin(maps, U) && forall n :: n in roots ==> n.id in U
    requires ChildClosed(maps, C) && forall n :: n in roots ==> n.id in C
    ensures PlaceRoots(maps, U, s, roots).visited <= s.visited + C
  {
    if roots != [] {
      var init := roots[..|roots| - 1];
      assert forall n :: n in init ==> n in roots;
      PlaceRootsReach(maps, U, s, init, C);
      PlaceNodeReach(maps, U, PlaceRoots(maps, U, s, init), roots[|roots| - 1].id, 400 * (|roots| - 1), 0, C);
    }
  }

  /**
   * The j-th of the k children of a node at x that is still unvisited when
   * its turn comes ends at (ChildSlotX(x, k, j), y).
   */
  lemma {:induction false} PlaceChildrenSlot(maps: LayoutMaps, U: set<Id>, s: LayoutState, cs: seq<Id>, k: int, x: int, y: int, j: nat, p: nat)
    requires ChildrenWithin(maps, U) && forall c :: c in cs ==> c in U
    requires j < |cs|
    requires cs[j] !in PlaceChildren(maps, U, s, cs[..j], k, x, y).visited
    requires IndexOf(PlaceChildren(maps, U, s, cs[..j], k, x, y).nodes, cs[j]) == Some(p)
    ensures var r := PlaceChildren(maps, U, s, cs, k, x, y);
      p < |r.nodes| && r.nodes[p].position == Position(ChildSlotX(x, k, j), y) && cs[j] in r.visited
  {
    var init := cs[..|cs| - 1];
    assert forall c :: c in init ==> c in cs;
    var before := PlaceChildren(maps, U, s, init, k, x, y);
    if j == |cs| - 1 {
      assert init == cs[..j];
      PlaceNodeSetsOwn(maps, U, before, cs[j], ChildSlotX(x, k, j), y, p);
    } else {
      assert init[..j] == cs[..j] && init[j] == cs[j];
      PlaceChildrenSlot(maps, U, s, init, k, x, y, j, p);
      PlaceChildrenShape(maps, U, s, cs[..j], k, x, y);
      PlaceChildrenShape(maps, U, s, init, k, x, y);
      PlaceNodeShape(maps, U, before, cs[|cs| - 1], ChildSlotX(x, k, |cs| - 1), y);
    }
  }

  /** Every unvisited spouse that has a node ends at the spouse position (and stays unvisited). */
  lemma {:induction false} PlaceSpousesSets(s: LayoutState, sps: seq<Id>, sx: int, sy: int, sp: Id, p: nat)
    requires sp in sps && sp !in s.visited && IndexOf(s.nodes, sp) == Some(p)
    ensures var r := PlaceSpouses(s, sps, sx, sy);
      p < |r.nodes| && r.nodes[p].position == Position(sx, sy) && sp !in r.visited
  {
    var init, last := sps[..|sps| - 1], sps[|sps| - 1];
    var before := PlaceSpouses(s, init, sx, sy);
    PlaceSpousesKeepNodes(s, init, sx, sy);
    IndexOfIgnoresPositions(s.nodes, before.nodes, sp);
    var r := PlaceSpouses(s, sps, sx, sy);
    if last == sp {
      assert r.nodes == Moved(before.nodes, p, Position(sx, sy));
    } else {
      assert sp in init by { assert sps == init + [last]; }
      PlaceSpousesSets(s, init, sx, sy, sp, p);
      assert r.nodes[p] == before.nodes[p] by {
        match IndexOf(before.nodes, last)
        case None =>
        case Some(q) =>
          assert before.nodes[q].id != before.nodes[p].id;
      }
    }
  }

  lemma {:induction false} PlaceSpousesKeepNodes(s: LayoutState, sps: seq<Id>, sx: int, sy: int)
    ensures SameUpToPositions(s.nodes, PlaceSpouses(s, sps, sx, sy).nodes)
  {
    if sps != [] {
      PlaceSpousesKeepNodes(s, sps[..|sps| - 1], sx, sy);
    }
  }

  /**
   * The i-th root, unless an earlier root has the same id, ends at
   * (400·i, 0): nothing placed after it can move it, because it is
   * visited and no root is anybody's child.
   */
  lemma {:induction false} PlaceRootsSlot(maps: LayoutMaps, U: set<Id>, s: LayoutState, roots: seq<FlowNode>, i: nat, p: nat)
    requires ChildrenWithin(maps, U) && forall n :: n in roots ==> n.id in U
    requires i < |roots| && roots[i].id !in s.visited && !IsChild(maps, roots[i].id)
    requires forall j :: 0 <= j < i ==> roots[j].id != roots[i].id
    requires IndexOf(s.nodes, roots[i].id) == Some(p)
    ensures var r := PlaceRoots(maps, U, s, roots);
      p < |r.nodes| && r.nodes[p].position == Position(400 * i, 0) && roots[i].id in r.visited
  {
    var init := roots[..|roots| - 1];
    assert forall n :: n in init ==> n in roots;
    var before := PlaceRoots(maps, U, s, init);
    PlaceRootsShape(maps, U, s, init);
    IndexOfIgnoresPositions(s.nodes, before.nodes, roots[i].id);
    if i == |roots| - 1 {
      assert roots[i].id !in before.visited;
      PlaceNodeSetsOwn(maps, U, before, roots[i].id, 400 * i, 0, p);
    } else {
      assert init[i] == roots[i];
      PlaceRootsSlot(maps, U, s, init, i, p);
      PlaceNodeShape(maps, U, before, roots[|roots| - 1].id, 400 * (|roots| - 1), 0);
    }
  }

  // ---------------------------------------------------------------------
  // The layout as a whole

  /** A node is a root exactly when it is a node whose id is no parent relationship's child. */
  lemma RootNodesIff(nodes: seq<FlowNode>, rels: seq<Relationship>, n: FlowNode)
    ensures n in RootNodes(nodes, rels) <==>
            n in nodes && forall rel :: rel in rels && rel.kind == Parent ==> rel.bId != n.id
  {
    FilterMembership(nodes, IsRoot(ChildIdSet(rels)));
  }

  /** The layout returns the same nodes, with the same ids and data, in the same order; only positions change. */
  lemma LayoutKeepsNodes(nodes: seq<FlowNode>, rels: seq<Relationship>)
    ensures SameUpToPositions(nodes, HierarchicalLayout(nodes, rels))
  {
    var U := Universe(nodes, rels);
    MapsChildrenWithin(rels, U);
    PlaceRootsShape(MapsOf(rels), U, LayoutState(nodes, {}), RootNodes(nodes, rels));
  }

  /** A set of ids that contains the child of every parent relationship whose parent it contains. */
  ghost predicate ParentClosed(rels: seq<Relationship>, C: set<Id>) {
    forall rel :: rel in rels && rel.kind == Parent && rel.aId in C ==> rel.bId in C
  }

  /**
   * Nodes the placement never reaches keep their input position. `C` is
   * any set of ids that holds every root and is closed under parent→child
   * (the least such set is the set of ids reachable from the roots): a
   * node moves only if it is the first node with its id and its id is in
   * `C` or is a spouse, by some spouse relationship, of an id in `C`.
   */
  lemma LayoutMovesOnlyReached(nodes: seq<FlowNode>, rels: seq<Relationship>, C: set<Id>)
    requires forall n :: n in RootNodes(nodes, rels) ==> n.id in C
    requires ParentClosed(rels, C)
    ensures |HierarchicalLayout(nodes, rels)| == |nodes|
    ensures forall k :: 0 <= k < |nodes| && HierarchicalLayout(nodes, rels)[k] != nodes[k] ==>
      IndexOf(nodes, nodes[k].id) == Some(k) &&
      (nodes[k].id in C ||
       exists rel :: rel in rels && rel.kind == Spouse &&
         ((rel.aId in C && rel.bId == nodes[k].id) || (rel.bId in C && rel.aId == nodes[k].id)))
  {
    var maps := MapsOf(rels);
    var U := Universe(nodes, rels);
    var roots := RootNodes(nodes, rels);
    var s := LayoutState(nodes, {});
    MapsChildrenWithin(rels, U);
    forall a, c | a in C && c in Lookup(maps.children, a) ensures c in C {
      ChildEdgeIff(rels, a, c);
    }
    PlaceRootsMoves(maps, U, s, roots);
    PlaceRootsReach(maps, U, s, roots, C);
    var r := PlaceRoots(maps, U, s, roots);
    forall k | 0 <= k < |nodes| && r.nodes[k] != nodes[k]
      ensures nodes[k].id in C ||
        exists rel :: rel in rels && rel.kind == Spouse &&
          ((rel.aId in C && rel.bId == nodes[k].id) || (rel.bId in C && rel.aId == nodes[k].id))
    {
      if nodes[k].id !in r.visited {
        var u :| u in r.visited && nodes[k].id in Lookup(maps.spouses, u);
        SpouseEdgeIff(rels, u, nodes[k].id);
      }
    }
  }

  /**
   * The i-th root ends at (400·i, 0), unless an earlier root has the same
   * id (then the first node with that id was placed at the earlier slot).
   */
  lemma LayoutPlacesRoots(nodes: seq<FlowNode>, rels: seq<Relationship>, i: nat)
    requires i < |RootNodes(nodes, rels)|
    requires forall j :: 0 <= j < i ==> RootNodes(nodes, rels)[j].id != RootNodes(nodes, rels)[i].id
    ensures var p := IndexOf(nodes, RootNodes(nodes, rels)[i].id);
      p.Some? && p.value < |HierarchicalLayout(nodes, rels)| &&
      HierarchicalLayout(nodes, rels)[p.value].position == Position(400 * i, 0)
  {
    var maps := MapsOf(rels);
    var U := Universe(nodes, rels);
    var roots := RootNodes(nodes, rels);
    MapsChildrenWithin(rels, U);
    var root := roots[i];
    assert root in roots;
    var p := IndexOf(nodes, root.id);
    assert p.Some?;
    if IsChild(maps, root.id) {
      var a :| root.id in Lookup(maps.children, a);
      ChildEdgeIff(rels, a, root.id);
      assert false;
    }
    PlaceRootsSlot(maps, U, LayoutState(nodes, {}), roots, i, p.value);
  }

  /**
   * Two spouses with no parents are both roots: the second is first put
   * 250 to the right of the first as its spouse, but is not marked as
   * placed, so its own turn as a root moves it to the second root slot.
   */
  lemma SpouseRootsTakeRootSlots(a: FlowNode, b: FlowNode, rel: Relationship)
    requires a.id != b.id && rel.kind == Spouse && rel.aId == a.id && rel.bId == b.id
    ensures HierarchicalLayout([a, b], [rel]) ==
              [a.(position := Position(0, 0)), b.(position := Position(400, 0))]
  {
    var nodes, rels := [a, b], [rel];
    var maps := MapsOf(rels);
    var U := Universe(nodes, rels);
    MapsChildrenWithin(rels, U);
    SpouseExampleMaps(a.id, b.id, rel);
    assert RootNodes(nodes, rels) == [a, b] by {
      assert ChildIdSet(rels) == {};
      FilterAllKept(nodes, IsRoot(ChildIdSet(rels)));
    }
    var s0 := LayoutState(nodes, {});
    var s1 := LayoutState([a.(position := Position(0, 0)), b.(position := Position(250, 0))], {a.id});
    SpouseExampleFirstRoot(a, b, rel, U);
    assert [a, b][..1] == [a] && [a][..0] == [];
    assert PlaceRoots(maps, U, s0, [a]) == s1;
    SpouseExampleSecondRoot(a, b, rel, U);
  }

  /** In the example, the second root is visited next: it moves to the second root slot. */
  lemma SpouseExampleSecondRoot(a: FlowNode, b: FlowNode, rel: Relationship, U: set<Id>)
    requires a.id != b.id && rel.kind == Spouse && rel.aId == a.id && rel.bId == b.id
    requires b.id in U && ChildrenWithin(MapsOf([rel]), U)
    ensures var s1 := LayoutState([a.(position := Position(0, 0)), b.(position := Position(250, 0))], {a.id});
      PlaceNode(MapsOf([rel]), U, s1, b.id, 400, 0).nodes ==
        [a.(position := Position(0, 0)), b.(position := Position(400, 0))]
  {
    var maps := MapsOf([rel]);
    SpouseExampleMaps(a.id, b.id, rel);
    var s1 := LayoutState([a.(position := Position(0, 0)), b.(position := Position(250, 0))], {a.id});
    var placed2 := LayoutState(Moved(s1.nodes, 1, Position(400, 0)), {a.id, b.id});
    assert IndexOf(s1.nodes, b.id) == Some(1);
    assert PlaceChildren(maps, U, placed2, [], 0, 400, 200) == placed2;
    assert [a.id][..0] == [];
    assert PlaceSpouses(placed2, [a.id], 650, 0) == placed2;
    assert s1.visited + {b.id} == placed2.visited;
  }

  /** The maps of one spouse relationship between a and b. */
  lemma SpouseExampleMaps(a: Id, b: Id, rel: Relationship)
    requires a != b && rel.kind == Spouse && rel.aId == a && rel.bId == b
    ensures var maps := MapsOf([rel]);
      Lookup(maps.children, a) == [] && Lookup(maps.children, b) == [] &&
      Lookup(maps.spouses, a) == [b] && Lookup(maps.spouses, b) == [a]
  {
    assert [rel][..0] == [];
    var none: map<Id, seq<Id>> := map[];
    assert MapsOf([]) == LayoutMaps(none, none);
    var once := Push(none, a, b);
    assert [] + [b] == [b] && [] + [a] == [a];
    assert Lookup(once, a) == [b];
    assert MapsOf([rel]) == LayoutMaps(none, Push(once, b, a));
  }

  /** In the example, the first root is placed at the origin and its spouse 250 to its right. */
  lemma SpouseExampleFirstRoot(a: FlowNode, b: FlowNode, rel: Relationship, U: set<Id>)
    requires a.id != b.id && rel.kind == Spouse && rel.aId == a.id && rel.bId == b.id
    requires a.id in U && ChildrenWithin(MapsOf([rel]), U)
    ensures PlaceNode(MapsOf([rel]), U, LayoutState([a, b], {}), a.id, 0, 0) ==
              LayoutState([a.(position := Position(0, 0)), b.(position := Position(250, 0))], {a.id})
  {
    var maps := MapsOf([rel]);
    SpouseExampleMaps(a.id, b.id, rel);
    var placed := LayoutState(Moved([a, b], 0, Position(0, 0)), {a.id});
    assert IndexOf([a, b], a.id) == Some(0);
    assert PlaceChildren(maps, U, placed, [], 0, 0, 200) == placed;
    assert IndexOf(placed.nodes, b.id) == Some(1);
    assert [b.id][..0] == [];
    assert PlaceSpouses(placed, [b.id], 250, 0) == placed.(nodes := Moved(placed.nodes, 1, Position(250, 0)));
    assert {} + {a.id} == {a.id};
  }

  // ---------------------------------------------------------------------
  // The computation, in place

  /** One pass over the relationships filling the parent→children and spouse maps. */
  method BuildLayoutMaps(rels: seq<Relationship>) returns (maps: LayoutMaps)
    ensures maps == MapsOf(rels)
  {
    var children: map<Id, seq<Id>> := map[];
    var spouses: map<Id, seq<Id>> := map[];
    for i := 0 to |rels|
      invariant LayoutMaps(children, spouses) == MapsOf(rels[..i])
    {
      var rel := rels[i];
      assert rels[..i + 1][..i] == rels[..i];
      if rel.kind == Parent {
        if rel.aId !in children {
          children := children[rel.aId := []];
        }
        children := children[rel.aId := children[rel.aId] + [rel.bId]];
      } else if rel.kind == Spouse {
        if rel.aId !in spouses {
          spouses := spouses[rel.aId := []];
        }
        spouses := spouses[rel.aId := spouses[rel.aId] + [rel.bId]];
        if rel.bId !in spouses {
          spouses := spouses[rel.bId := []];
        }
        spouses := spouses[rel.bId := spouses[rel.bId] + [rel.aId]];
      }
    }
    assert rels[..|rels|] == rels;
    maps := LayoutMaps(children, spouses);
  }

  /** Searches the node buffer for the first node with the id. */
  method FindIndex(a: array<FlowNode>, id: Id) returns (r: Option<nat>)
    ensures r == IndexOf(a[..], id)
  {
    var i := 0;
    while i < a.Length
      invariant 0 <= i <= a.Length
      invariant forall k :: 0 <= k < i ==> a[k].id != id
    {
      if a[i].id == id {
        return Some(i);
      }
      i := i + 1;
    }
    return None;
  }

  /** The environment of the `positionNode` closure: the shared node list, the maps and `visited`. */
  class Placement {
    const nodes: array<FlowNode>
    const maps: LayoutMaps
    ghost const universe: set<Id>
    var visited: set<Id>

    ghost function State(): LayoutState
      reads this, nodes
    {
      LayoutState(nodes[..], visited)
    }

    constructor (nodes: array<FlowNode>, maps: LayoutMaps, ghost universe: set<Id>)
      ensures this.nodes == nodes && this.maps == maps && this.universe == universe
      ensures visited == {}
    {
      this.nodes := nodes;
      this.maps := maps;
      this.universe := universe;
      visited := {};
    }

    method PositionNode(id: Id, x: int, y: int)
      requires id in universe && ChildrenWithin(maps, universe)
      modifies this, nodes
      ensures State() == PlaceNode(maps, universe, old(State()), id, x, y)
      decreases universe - visited, 0
    {
      if id in visited {
        return;
      }
      visited := visited + {id};
      var found := FindIndex(nodes, id);
      if found.None? {
        return;
      }
      nodes[found.value] := nodes[found.value].(position := Position(x, y));

      var children := Lookup(maps.children, id);
      PositionChildren(children, x, y + 200);
      PositionSpouses(Lookup(maps.spouses, id), x + 250, y);
    }

    /** The roots loop: root i is placed from (400·i, 0). */
    method PositionRoots(roots: seq<FlowNode>)
      requires ChildrenWithin(maps, universe) && forall n :: n in roots ==> n.id in universe
      modifies this, nodes
      ensures State() == PlaceRoots(maps, universe, old(State()), roots)
    {
      ghost var start := State();
      var rootX := 0;
      var i := 0;
      while i < |roots|
        invariant 0 <= i <= |roots|
        invariant rootX == 400 * i
        invariant State() == PlaceRoots(maps, universe, start, roots[..i])
      {
        assert roots[..i + 1][..i] == roots[..i];
        PositionNode(roots[i].id, rootX, 0);
        rootX := rootX + 400;
        i := i + 1;
      }
      assert roots[..|roots|] == roots;
    }

    /** The children loop of `positionNode`: child j goes to slot j of the row, 300 apart. */
    method PositionChildren(children: seq<Id>, x: int, y: int)
      requires ChildrenWithin(maps, universe) && forall c :: c in children ==> c in universe
      modifies this, nodes
      ensures State() == PlaceChildren(maps, universe, old(State()), children, |children|, x, y)
      decreases universe - visited, 1
    {
      ghost var start := State();
      var childX := x - (|children| - 1) * 150;
      var j := 0;
      while j < |children|
        invariant 0 <= j <= |children|
        invariant childX == ChildSlotX(x, |children|, j)
        invariant State() == PlaceChildren(maps, universe, start, children[..j], |children|, x, y)
        invariant old(visited) <= visited
      {
        assert children[..j + 1][..j] == children[..j];
        PositionNode(children[j], childX, y);
        childX := childX + 300;
        j := j + 1;
      }
      assert children[..|children|] == children;
    }

    /** The spouses loop of `positionNode`: every unvisited spouse is moved to (sx, sy). */
    method PositionSpouses(spouses: seq<Id>, sx: int, sy: int)
      modifies nodes
      ensures State() == PlaceSpouses(old(State()), spouses, sx, sy)
    {
      var j := 0;
      while j < |spouses|
        invariant 0 <= j <= |spouses|
        invariant State() == PlaceSpouses(old(State()), spouses[..j], sx, sy)
      {
        assert spouses[..j + 1][..j] == spouses[..j];
        var spouseId := spouses[j];
        if spouseId !in visited {
          var spouse := FindIndex(nodes, spouseId);
          if spouse.Some? {
            nodes[spouse.value] := nodes[spouse.value].(position := Position(sx, sy));
          }
        }
        j := j + 1;
      }
      assert spouses[..|spouses|] == spouses;
    }
  }

  /** `applyHierarchicalLayout`: computes `HierarchicalLayout` on a copy of the node list. */
  method ApplyHierarchicalLayout(nodes: seq<FlowNode>, rels: seq<Relationship>) returns (positioned: seq<FlowNode>)
    ensures positioned == HierarchicalLayout(nodes, rels)
  {
    var maps := BuildLayoutMaps(rels);
    var roots := RootNodes(nodes, rels);
    ghost var U := Universe(nodes, rels);
    MapsChildrenWithin(rels, U);

    var buffer := new FlowNode[|nodes|](i requires 0 <= i < |nodes| => nodes[i]);
    assert buffer[..] == nodes;
    var placement := new Placement(buffer, maps, U);
    assert placement.State() == LayoutState(nodes, {});
    placement.PositionRoots(roots);
    positioned := buffer[..];
    assert positioned == PlaceRoots(maps, U, LayoutState(nodes, {}), roots).nodes;
  }
}
