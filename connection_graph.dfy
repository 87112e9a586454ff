/**
 * The graph the legacy tree view builds before laying it out: one node
 * per distinct member id, each with the list of its connections. Every
 * relationship whose two ends are members adds a connection on its `a`
 * end pointing at `b`; a spouse relationship also adds the reverse
 * connection on its `b` end.
 */
module ConnectionGraph {
  import opened Wrappers
  import opened Lists

  type Id = string

  /** The member record this view works with. */
  datatype VisMember = VisMember(
    id: Id,
    name: string,
    birthdate: Option<string>,
    photoPath: Option<string>,
    summary: Option<string>,
    createdAt: string)

  /** A relationship as this view receives it: its type is any string. */
  datatype VisRelationship = VisRelationship(id: Id, aId: Id, bId: Id, kind: string)

  /** An entry of a node's adjacency list. */
  datatype Connection = Connection(targetId: Id, kind: string, relationshipId: Id)

  /** A node of the view, at its starting position. */
  datatype GraphNode = GraphNode(id: Id, member: VisMember, x: int, y: int, connections: seq<Connection>)

  // ---------------------------------------------------------------------
  // The graph, as functions of the input

  predicate HasId(members: seq<VisMember>, id: Id) {
    exists m :: m in members && m.id == id
  }

  /** The distinct member ids, in order of first occurrence. */
  function DistinctIds(members: seq<VisMember>): (ids: seq<Id>)
    ensures forall i, j :: 0 <= i < j < |ids| ==> ids[i] != ids[j]
    ensures forall id :: id in ids <==> HasId(members, id)
  {
    if members == [] then []
    else
      var init := DistinctIds(members[..|members| - 1]);
      var m := members[|members| - 1];
      assert forall x :: x in members[..|members| - 1] ==> x in members;
      assert forall id :: HasId(members, id) ==> HasId(members[..|members| - 1], id) || m.id == id by {
        forall id | HasId(members, id) ensures HasId(members[..|members| - 1], id) || m.id == id {
          var x :| x in members && x.id == id;
          var k :| 0 <= k < |members| && members[k] == x;
          if k < |members| - 1 {
            assert members[..|members| - 1][k] == x;
          }
        }
      }
      if m.id in init then init else init + [m.id]
  }

  /** The last member with the id: a later member with the same id replaces an earlier one. */
  function LastWith(members: seq<VisMember>, id: Id): (m: VisMember)
    requires HasId(members, id)
    ensures m in members && m.id == id
  {
    var last := members[|members| - 1];
    if last.id == id then last
    else
      var init := members[..|members| - 1];
      assert HasId(init, id) by {
        var x :| x in members && x.id == id;
        var k :| 0 <= k < |members| && members[k] == x;
        assert k < |members| - 1 && init[k] == x;
      }
      LastWith(init, id)
  }

  /** Both ends of the relationship are members. */
  predicate Resolved(members: seq<VisMember>, rel: VisRelationship) {
    HasId(members, rel.aId) && HasId(members, rel.bId)
  }

  function Resolves(members: seq<VisMember>): VisRelationship -> bool {
    (rel: VisRelationship) => Resolved(members, rel)
  }

  /** Both ends are members and the type is "spouse". */
  function ResolvedSpouse(members: seq<VisMember>): VisRelationship -> bool {
    (rel: VisRelationship) => Resolved(members, rel) && IsSpouse(rel.kind)
  }

  /** The relationship type that is mirrored onto both ends. */
  predicate IsSpouse(kind: string) {
    kind == "spouse"
  }

  /** What one relationship adds to the connections of node `id`: the forward entry first, then the reverse one. */
  function Contribution(members: seq<VisMember>, rel: VisRelationship, id: Id): seq<Connection> {
    if !Resolved(members, rel) then []
    else
      (if rel.aId == id then [Connection(rel.bId, rel.kind, rel.id)] else []) +
      (if IsSpouse(rel.kind) && rel.bId == id then [Connection(rel.aId, "spouse", rel.id)] else [])
  }

  /** The connections of node `id` after the relationships are processed in order. */
  function ConnectionsOf(members: seq<VisMember>, rels: seq<VisRelationship>, id: Id): seq<Connection> {
    if rels == [] then []
    else ConnectionsOf(members, rels[..|rels| - 1], id) + Contribution(members, rels[|rels| - 1], id)
  }

  function NodeFor(members: seq<VisMember>, rels: seq<VisRelationship>, id: Id): GraphNode
    requires HasId(members, id)
  {
    GraphNode(id, LastWith(members, id), 0, 0, ConnectionsOf(members, rels, id))
  }

  /** The node list: one node per distinct id, in first-occurrence order; none for no members. */
  function Graph(members: seq<VisMember>, rels: seq<VisRelationship>): seq<GraphNode> {
    var ids := DistinctIds(members);
    seq(|ids|, i requires 0 <= i < |ids| => NodeFor(members, rels, ids[i]))
  }

  // ---------------------------------------------------------------------
  // What the graph is

  /**
   * No members, no nodes. Otherwise exactly one node per distinct member
   * id, no two nodes with the same id, each holding the last member with
   * its id and starting at (0, 0).
   */
  lemma GraphHasOneNodePerMember(members: seq<VisMember>, rels: seq<VisRelationship>)
    ensures members == [] ==> Graph(members, rels) == []
    ensures forall id :: HasId(members, id) <==> exists n :: n in Graph(members, rels) && n.id == id
    ensures forall i, j :: 0 <= i < j < |Graph(members, rels)| ==> Graph(members, rels)[i].id != Graph(members, rels)[j].id
    ensures forall n :: n in Graph(members, rels) ==>
              n.member == LastWith(members, n.id) && n.x == 0 && n.y == 0
  {
    var g := Graph(members, rels);
    var ids := DistinctIds(members);
    forall id | HasId(members, id) ensures exists n :: n in g && n.id == id {
      var i :| 0 <= i < |ids| && ids[i] == id;
      assert g[i].id == id;
    }
  }

  /**
   * A connection is on node `id` exactly when some relationship with both
   * ends among the members gives it: a forward entry on its `a` end, or,
   * for a spouse relationship only, a reverse entry on its `b` end.
   */
  lemma {:induction false} ConnectionIff(members: seq<VisMember>, rels: seq<VisRelationship>, id: Id, c: Connection)
    ensures c in ConnectionsOf(members, rels, id) <==>
      exists rel :: rel in rels && Resolved(members, rel) &&
        ((rel.aId == id && c == Connection(rel.bId, rel.kind, rel.id)) ||
         (IsSpouse(rel.kind) && rel.bId == id && c == Connection(rel.aId, "spouse", rel.id)))
  {
    if rels != [] {
      var init, last := rels[..|rels| - 1], rels[|rels| - 1];
      ConnectionIff(members, init, id, c);
      assert rels == init + [last];
      assert forall rel :: rel in rels <==> rel in init || rel == last;
    }
  }

  /** Parent and sibling relationships are one-way: only the `a` end gets a connection from them. */
  lemma OnlySpousesAreMutual(members: seq<VisMember>, rels: seq<VisRelationship>, id: Id, c: Connection)
    requires c in ConnectionsOf(members, rels, id) && !IsSpouse(c.kind)
    ensures exists rel :: rel in rels && rel.aId == id && rel.bId == c.targetId && rel.id == c.relationshipId
  {
    ConnectionIff(members, rels, id, c);
  }

  /** A relationship with an end that is not a member adds nothing anywhere. */
  lemma {:induction false} DanglingAddsNothing(members: seq<VisMember>, rels: seq<VisRelationship>, id: Id)
    ensures ConnectionsOf(members, rels, id) == ConnectionsOf(members, Filter(rels, Resolves(members)), id)
  {
    if rels != [] {
      var init, last := rels[..|rels| - 1], rels[|rels| - 1];
      var keptInit := Filter(init, Resolves(members));
      var kept := Filter(rels, Resolves(members));
      DanglingAddsNothing(members, init, id);
      assert ConnectionsOf(members, rels, id) == ConnectionsOf(members, init, id) + Contribution(members, last, id);
      if Resolved(members, last) {
        assert kept == keptInit + [last];
        assert kept[..|kept| - 1] == keptInit && kept[|kept| - 1] == last;
      } else {
        assert kept == keptInit;
        assert Contribution(members, last, id) == [];
      }
    }
  }

  /** Connections follow the order of the relationships: a later batch appends after an earlier one. */
  lemma {:induction false} ConnectionsAppend(members: seq<VisMember>, r1: seq<VisRelationship>, r2: seq<VisRelationship>, id: Id)
    ensures ConnectionsOf(members, r1 + r2, id) == ConnectionsOf(members, r1, id) + ConnectionsOf(members, r2, id)
  {
    if r2 != [] {
      var init := r2[..|r2| - 1];
      ConnectionsAppend(members, r1, init, id);
      assert (r1 + r2)[..|r1 + r2| - 1] == r1 + init;
      assert (r1 + r2)[|r1 + r2| - 1] == r2[|r2| - 1];
    } else {
      assert r1 + r2 == r1;
    }
  }

  /** Number of positions of `ids` holding `x`. */
  function Occurrences(ids: seq<Id>, x: Id): nat {
    if ids == [] then 0
    else Occurrences(ids[..|ids| - 1], x) + (if ids[|ids| - 1] == x then 1 else 0)
  }

  lemma {:induction false} OccurrencesDistinct(ids: seq<Id>, x: Id)
    requires forall i, j :: 0 <= i < j < |ids| ==> ids[i] != ids[j]
    ensures Occurrences(ids, x) == if x in ids then 1 else 0
  {
    if ids != [] {
      var init := ids[..|ids| - 1];
      OccurrencesDistinct(init, x);
      assert x in ids <==> x in init || ids[|ids| - 1] == x;
      if ids[|ids| - 1] == x {
        assert x !in init;
      }
    }
  }

  /** Total number of connections over the nodes with the given ids. */
  function TotalConnections(members: seq<VisMember>, rels: seq<VisRelationship>, ids: seq<Id>): nat {
    if ids == [] then 0
    else TotalConnections(members, rels, ids[..|ids| - 1]) + |ConnectionsOf(members, rels, ids[|ids| - 1])|
  }

  /** What one relationship adds over all nodes: one entry at `a`, one more at `b` if it is a spouse relationship. */
  lemma {:induction false} ContributionTotal(members: seq<VisMember>, rel: VisRelationship, rels: seq<VisRelationship>, ids: seq<Id>)
    ensures TotalConnections(members, rels + [rel], ids) ==
      TotalConnections(members, rels, ids) +
      (if Resolved(members, rel) then Occurrences(ids, rel.aId) + (if IsSpouse(rel.kind) then Occurrences(ids, rel.bId) else 0) else 0)
  {
    if ids != [] {
      ContributionTotal(members, rel, rels, ids[..|ids| - 1]);
      assert (rels + [rel])[..|rels + [rel]| - 1] == rels;
    }
  }

  /** `CountWhere` over a list with one more element. */
  lemma CountWhereSnoc(rels: seq<VisRelationship>, rel: VisRelationship, p: VisRelationship -> bool)
    ensures CountWhere(rels + [rel], p) == CountWhere(rels, p) + (if p(rel) then 1 else 0)
  {
    assert (rels + [rel])[..|rels + [rel]| - 1] == rels;
  }

  /** With no relationships every node has an empty adjacency list. */
  lemma {:induction false} NoRelationshipsNoConnections(members: seq<VisMember>, ids: seq<Id>)
    ensures TotalConnections(members, [], ids) == 0
  {
    if ids != [] {
      NoRelationshipsNoConnections(members, ids[..|ids| - 1]);
    }
  }

  /** The count below, over any duplicate-free list of ids that covers the members. */
  lemma {:induction false} ConnectionCountOver(members: seq<VisMember>, rels: seq<VisRelationship>, ids: seq<Id>)
    requires forall i, j :: 0 <= i < j < |ids| ==> ids[i] != ids[j]
    requires forall id :: HasId(members, id) ==> id in ids
    ensures TotalConnections(members, rels, ids) ==
      CountWhere(rels, Resolves(members)) + CountWhere(rels, ResolvedSpouse(members))
  {
    if rels != [] {
      var init, last := rels[..|rels| - 1], rels[|rels| - 1];
      ConnectionCountOver(members, init, ids);
      assert init + [last] == rels;
      ContributionTotal(members, last, init, ids);
      CountWhereSnoc(init, last, Resolves(members));
      CountWhereSnoc(init, last, ResolvedSpouse(members));
      if Resolved(members, last) {
        OccurrencesDistinct(ids, last.aId);
        OccurrencesDistinct(ids, last.bId);
      }
    } else {
      NoRelationshipsNoConnections(members, ids);
    }
  }

  /**
   * The graph holds one connection per relationship whose ends are both
   * members, plus one more per such spouse relationship.
   */
  lemma ConnectionCount(members: seq<VisMember>, rels: seq<VisRelationship>)
    ensures TotalConnections(members, rels, DistinctIds(members)) ==
      CountWhere(rels, Resolves(members)) + CountWhere(rels, ResolvedSpouse(members))
  {
    ConnectionCountOver(members, rels, DistinctIds(members));
  }

  // ---------------------------------------------------------------------
  // The computation, with a map and an insertion order

  /** What one more member changes in the functions above. */
  lemma MemberSnoc(prefix: seq<VisMember>, m: VisMember)
    ensures DistinctIds(prefix + [m]) ==
      if m.id in DistinctIds(prefix) then DistinctIds(prefix) else DistinctIds(prefix) + [m.id]
    ensures forall id :: HasId(prefix + [m], id) <==> HasId(prefix, id) || id == m.id
    ensures LastWith(prefix + [m], m.id) == m
    ensures forall id :: id != m.id && HasId(prefix, id) ==> LastWith(prefix + [m], id) == LastWith(prefix, id)
  {
    var s := prefix + [m];
    assert s[..|s| - 1] == prefix && s[|s| - 1] == m;
    forall id | HasId(prefix, id) ensures HasId(s, id) {
      var x :| x in prefix && x.id == id;
      assert x in s;
    }
  }

  /** One member's turn of the members loop keeps the loop's invariant. */
  lemma MemberStep(prefix: seq<VisMember>, m: VisMember, byId: map<Id, GraphNode>, order: seq<Id>)
    requires order == DistinctIds(prefix)
    requires forall id :: id in byId <==> HasId(prefix, id)
    requires forall id :: id in byId ==> byId[id] == GraphNode(id, LastWith(prefix, id), 0, 0, [])
    ensures (if m.id in byId then order else order + [m.id]) == DistinctIds(prefix + [m])
    ensures forall id :: id in byId[m.id := GraphNode(m.id, m, 0, 0, [])] <==> HasId(prefix + [m], id)
    ensures forall id :: id in byId[m.id := GraphNode(m.id, m, 0, 0, [])] ==>
              byId[m.id := GraphNode(m.id, m, 0, 0, [])][id] == GraphNode(id, LastWith(prefix + [m], id), 0, 0, [])
  {
    MemberSnoc(prefix, m);
    assert m.id in byId <==> m.id in DistinctIds(prefix);
  }

  /** The map after the members loop: every member id, bound to a node with the last member and no connections. */
  method CollectMembers(members: seq<VisMember>) returns (byId: map<Id, GraphNode>, order: seq<Id>)
    ensures order == DistinctIds(members)
    ensures forall id :: id in byId <==> HasId(members, id)
    ensures forall id :: id in byId ==> byId[id] == NodeFor(members, [], id)
  {
    byId, order := map[], [];
    for i := 0 to |members|
      invariant order == DistinctIds(members[..i])
      invariant forall id :: id in byId <==> HasId(members[..i], id)
      invariant forall id :: id in byId ==> byId[id] == GraphNode(id, LastWith(members[..i], id), 0, 0, [])
    {
      var m := members[i];
      ghost var prefix := members[..i];
      assert members[..i + 1] == prefix + [m];
      MemberStep(prefix, m, byId, order);
      if m.id !in byId {
        order := order + [m.id];
      }
      byId := byId[m.id := GraphNode(m.id, m, 0, 0, [])];
    }
    assert members[..|members|] == members;
  }

  /** One more relationship appends its contribution to every node's connections. */
  lemma RelationshipSnoc(members: seq<VisMember>, rels: seq<VisRelationship>, j: nat, id: Id)
    requires j < |rels|
    ensures ConnectionsOf(members, rels[..j + 1], id) ==
      ConnectionsOf(members, rels[..j], id) + Contribution(members, rels[j], id)
  {
    assert rels[..j + 1][..j] == rels[..j];
  }

  /**
   * One relationship's turn: if both ends are in the map, the forward
   * entry is appended to the `a` node and, for a spouse relationship, the
   * reverse entry to the `b` node, which is read again after the first
   * append so that a relationship of a member with itself lands twice on
   * the same node, as it does on the shared object.
   */
  method Attach(members: seq<VisMember>, byId: map<Id, GraphNode>, rel: VisRelationship)
    returns (after: map<Id, GraphNode>)
    requires forall id :: id in byId <==> HasId(members, id)
    ensures after.Keys == byId.Keys
    ensures forall id :: id in after ==>
              after[id] == byId[id].(connections := byId[id].connections + Contribution(members, rel, id))
  {
    assert (rel.aId in byId && rel.bId in byId) == Resolved(members, rel) by {
      assert rel.aId in byId <==> HasId(members, rel.aId);
      assert rel.bId in byId <==> HasId(members, rel.bId);
    }
    after := byId;
    if rel.aId in after && rel.bId in after {
      var nodeA := after[rel.aId];
      after := after[rel.aId := nodeA.(connections := nodeA.connections + [Connection(rel.bId, rel.kind, rel.id)])];
      if IsSpouse(rel.kind) {
        var nodeB := after[rel.bId];
        after := after[rel.bId := nodeB.(connections := nodeB.connections + [Connection(rel.aId, "spouse", rel.id)])];
      }
    }
    forall id | id in after
      ensures after[id] == byId[id].(connections := byId[id].connections + Contribution(members, rel, id))
    {
      var c := byId[id].connections;
      var forward := Connection(rel.bId, rel.kind, rel.id);
      var reverse := Connection(rel.aId, "spouse", rel.id);
      if !Resolved(members, rel) {
        assert after == byId;
      } else if id == rel.aId && id == rel.bId && IsSpouse(rel.kind) {
        assert after[id].connections == c + [forward] + [reverse];
        assert Contribution(members, rel, id) == [forward] + [reverse];
      } else if id == rel.aId {
        assert after[id].connections == c + [forward];
        assert Contribution(members, rel, id) == [forward];
      } else if id == rel.bId && IsSpouse(rel.kind) {
        assert after[id].connections == c + [reverse];
        assert Contribution(members, rel, id) == [reverse];
      } else {
        assert after[id] == byId[id];
        assert Contribution(members, rel, id) == [];
      }
    }
  }

  /**
   * The relationships loop: each relationship in turn attaches its
   * entries. Keys and everything but the connections stay as they were.
   */
  method AddConnections(members: seq<VisMember>, rels: seq<VisRelationship>, start: map<Id, GraphNode>)
    returns (byId: map<Id, GraphNode>)
    requires forall id :: id in start <==> HasId(members, id)
    requires forall id :: id in start ==> start[id].connections == []
    ensures byId.Keys == start.Keys
    ensures forall id :: id in byId ==> byId[id] == start[id].(connections := ConnectionsOf(members, rels, id))
  {
    byId := start;
    for j := 0 to |rels|
      invariant byId.Keys == start.Keys
      invariant forall id :: id in byId ==> byId[id] == start[id].(connections := ConnectionsOf(members, rels[..j], id))
    {
      byId := Attach(members, byId, rels[j]);
      forall id | id in byId
        ensures byId[id] == start[id].(connections := ConnectionsOf(members, rels[..j + 1], id))
      {
        RelationshipSnoc(members, rels, j, id);
      }
    }
    assert rels[..|rels|] == rels;
  }

  /**
   * Builds the node list as the view does: nothing for no members;
   * otherwise the member map, then the connections, then the map's
   * values in insertion order.
   */
  method BuildNodes(members: seq<VisMember>, rels: seq<VisRelationship>) returns (nodes: seq<GraphNode>)
    ensures nodes == Graph(members, rels)
  {
    if |members| == 0 {
      return [];
    }
    var byId, ids := CollectMembers(members);
    byId := AddConnections(members, rels, byId);
    nodes := seq(|ids|, i requires 0 <= i < |ids| && ids[i] in byId => byId[ids[i]]);
  }
}
