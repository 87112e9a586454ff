/**
 * The builder canvas around the layout: where the nodes start when the
 * canvas opens, which handles an edge uses, which relationship kind a
 * hand-drawn connection gets, and where a relative added from the menu
 * is drawn and what relationship is handed over to be saved.
 */
module TreeBuilder {
  import opened Wrappers
  import opened FamilyTypes
  import opened HierarchicalLayout

  // ---------------------------------------------------------------------
  // Initial nodes

  /** The single node an empty tree starts with. */
  const YouNode := FlowNode("you", Position(0, 0), Placeholder("You"))

  /** The default x of the i-th of n members: a row 200 apart centred on 0. */
  function DefaultX(i: int, n: int): int {
    i * 200 - (n - 1) * 100
  }

  /** Both coordinates are saved (neither is null nor undefined). */
  predicate HasSavedPosition(m: Member) {
    m.positionX.Some? && m.positionY.Some?
  }

  predicate AnySaved(members: seq<Member>) {
    exists m :: m in members && HasSavedPosition(m)
  }

  /** The i-th member as a node: each saved coordinate is used, a missing x is the default x, a missing y is 0. */
  function MemberNode(members: seq<Member>, i: nat): FlowNode
    requires i < |members|
  {
    var m := members[i];
    FlowNode(m.id, Position(m.positionX.GetOr(DefaultX(i, |members|)), m.positionY.GetOr(0)), MemberData(m))
  }

  function MemberNodes(members: seq<Member>): (r: seq<FlowNode>)
    ensures |r| == |members|
    ensures forall i :: 0 <= i < |members| ==> r[i].id == members[i].id && r[i].data == MemberData(members[i])
  {
    seq(|members|, i requires 0 <= i < |members| => MemberNode(members, i))
  }

  /** The hierarchical layout runs only for a non-empty tree with relationships and no saved position. */
  predicate UsesHierarchicalLayout(members: seq<Member>, rels: seq<Relationship>) {
    |members| > 0 && |rels| > 0 && !AnySaved(members)
  }

  /** The nodes the canvas starts with. */
  function InitialNodes(members: seq<Member>, rels: seq<Relationship>): (r: seq<FlowNode>)
    ensures members == [] ==> r == [YouNode]
    ensures members != [] ==> SameUpToPositions(MemberNodes(members), r)
  {
    if members == [] then [YouNode]
    else if UsesHierarchicalLayout(members, rels) then
      LayoutKeepsNodes(MemberNodes(members), rels);
      HierarchicalLayout.HierarchicalLayout(MemberNodes(members), rels)
    else MemberNodes(members)
  }

  /**
   * Without the layout, every member keeps each saved coordinate and
   * otherwise takes its default one; a single member with both
   * coordinates saved is enough to switch the layout off for all.
   */
  lemma InitialNodesWithoutLayout(members: seq<Member>, rels: seq<Relationship>)
    requires members != [] && (rels == [] || AnySaved(members))
    ensures var r := InitialNodes(members, rels);
      |r| == |members| &&
      forall i :: 0 <= i < |members| ==>
        (members[i].positionX.Some? ==> r[i].position.x == members[i].positionX.value) &&
        (members[i].positionX.None? ==> r[i].position.x == i * 200 - (|members| - 1) * 100) &&
        (members[i].positionY.Some? ==> r[i].position.y == members[i].positionY.value) &&
        (members[i].positionY.None? ==> r[i].position.y == 0)
  {
  }

  /**
   * With the layout, the i-th member that is no parent relationship's
   * child (counting only such members, and unless an earlier one has the
   * same id) starts at (400·i, 0).
   */
  lemma InitialNodesPlaceRoots(members: seq<Member>, rels: seq<Relationship>, i: nat)
    requires UsesHierarchicalLayout(members, rels)
    requires i < |RootNodes(MemberNodes(members), rels)|
    requires forall j :: 0 <= j < i ==>
               RootNodes(MemberNodes(members), rels)[j].id != RootNodes(MemberNodes(members), rels)[i].id
    ensures var p := IndexOf(MemberNodes(members), RootNodes(MemberNodes(members), rels)[i].id);
      p.Some? && p.value < |InitialNodes(members, rels)| &&
      InitialNodes(members, rels)[p.value].position == Position(400 * i, 0)
  {
    LayoutPlacesRoots(MemberNodes(members), rels, i);
  }

  /** The default row is centred on x = 0: the i-th and the i-th from the end are mirror images. */
  lemma DefaultRowCentred(i: int, n: int)
    requires 0 <= i < n
    ensures DefaultX(i, n) == -DefaultX(n - 1 - i, n)
  {
  }

  // ---------------------------------------------------------------------
  // Edge handles and connection kinds

  datatype Handles = Handles(source: string, target: string)

  /** The handles an edge of each relationship kind is drawn between. */
  function EdgeHandles(kind: RelKind): Handles {
    match kind
    case Parent => Handles("child", "parent")
    case Spouse => Handles("spouse-source", "spouse-target")
    case Sibling => Handles("sibling-source", "sibling-target")
  }

  datatype Edge = Edge(id: Id, source: Id, target: Id, handles: Handles)

  /** The edge the canvas draws for a stored relationship, from a to b. */
  function RelationshipEdge(rel: Relationship): Edge {
    Edge(rel.id, rel.aId, rel.bId, EdgeHandles(rel.kind))
  }

  /** `w` occurs in `s` starting at index i. */
  predicate OccursAt(s: string, w: string, i: int) {
    0 <= i && i + |w| <= |s| && s[i..i + |w|] == w
  }

  /** `w` occurs in `s` as a contiguous piece (a substring test). */
  predicate Contains(s: string, w: string) {
    exists i :: 0 <= i <= |s| && OccursAt(s, w, i)
  }

  /** A piece of either part is a piece of the whole. */
  lemma ContainsInConcat(a: string, b: string, w: string)
    requires Contains(a, w) || Contains(b, w)
    ensures Contains(a + b, w)
  {
    if Contains(a, w) {
      var i :| 0 <= i <= |a| && OccursAt(a, w, i);
      assert (a + b)[i..i + |w|] == a[i..i + |w|];
      assert OccursAt(a + b, w, i);
    } else {
      var i :| 0 <= i <= |b| && OccursAt(b, w, i);
      assert 0 <= i && i + |w| <= |b| && b[i..i + |w|] == w;
      assert (a + b)[|a| + i..|a| + i + |w|] == b[i..i + |w|];
      assert OccursAt(a + b, w, |a| + i);
    }
  }

  /** The two handles of a hand-drawn connection, joined by a dash; a missing handle counts as empty. */
  function JoinedHandles(sourceHandle: Option<string>, targetHandle: Option<string>): string {
    sourceHandle.GetOr("") + "-" + targetHandle.GetOr("")
  }

  /** The kind of a hand-drawn connection: spouse, else sibling, else parent, by the handle names. */
  function InferType(sourceHandle: Option<string>, targetHandle: Option<string>): RelKind {
    var handles := JoinedHandles(sourceHandle, targetHandle);
    if Contains(handles, "spouse") then Spouse
    else if Contains(handles, "sibling") then Sibling
    else Parent
  }

  /** A spouse handle at either end makes a spouse, whatever the other end is. */
  lemma SpouseHandleWins(sourceHandle: Option<string>, targetHandle: Option<string>)
    requires Contains(sourceHandle.GetOr(""), "spouse") || Contains(targetHandle.GetOr(""), "spouse")
    ensures InferType(sourceHandle, targetHandle) == Spouse
  {
    var src, tgt := sourceHandle.GetOr(""), targetHandle.GetOr("");
    if Contains(src, "spouse") {
      ContainsInConcat(src, "-", "spouse");
    }
    ContainsInConcat(src + "-", tgt, "spouse");
  }

  /** No `c` in `s` is directly followed by `d`. */
  predicate NoPair(s: string, c: char, d: char) {
    forall i :: 0 <= i < |s| - 1 ==> !(s[i] == c && s[i + 1] == d)
  }

  /** A word whose first two letters never occur side by side does not occur. */
  lemma NoPairNotContains(s: string, w: string)
    requires |w| >= 2 && NoPair(s, w[0], w[1])
    ensures !Contains(s, w)
  {
    forall i | 0 <= i && i + |w| <= |s| ensures !OccursAt(s, w, i) {
      assert s[i..i + |w|][0] == s[i] && s[i..i + |w|][1] == s[i + 1];
    }
  }

  /** A word without a dash that occurs in two parts joined by a dash occurs in one of the parts. */
  lemma ContainsAcrossDash(a: string, b: string, w: string)
    requires '-' !in w && Contains(a + "-" + b, w)
    ensures Contains(a, w) || Contains(b, w)
  {
    var s := a + "-" + b;
    var i :| 0 <= i <= |s| && OccursAt(s, w, i);
    assert s[|a|] == '-';
    assert forall k :: i <= k < i + |w| ==> s[k] == w[k - i];
    if i + |w| <= |a| {
      assert a[i..i + |w|] == s[i..i + |w|];
      assert OccursAt(a, w, i);
    } else if i >= |a| + 1 {
      var j := i - |a| - 1;
      assert s[|a| + 1..] == b;
      assert b[j..j + |w|] == s[i..i + |w|];
      assert OccursAt(b, w, j);
    } else {
      assert false;
    }
  }

  /**
   * The rule behind the joined-string test, stated on the two handles
   * separately: spouse when either handle names "spouse", otherwise
   * sibling when either names "sibling", otherwise parent.
   */
  lemma InferTypeRule(sourceHandle: Option<string>, targetHandle: Option<string>)
    ensures var src, tgt := sourceHandle.GetOr(""), targetHandle.GetOr("");
      InferType(sourceHandle, targetHandle) ==
        if Contains(src, "spouse") || Contains(tgt, "spouse") then Spouse
        else if Contains(src, "sibling") || Contains(tgt, "sibling") then Sibling
        else Parent
  {
    var src, tgt := sourceHandle.GetOr(""), targetHandle.GetOr("");
    var joined := JoinedHandles(sourceHandle, targetHandle);
    assert joined == src + "-" + tgt;
    WordInJoined(src, tgt, "spouse");
    WordInJoined(src, tgt, "sibling");
  }

  /** A dash-free word occurs in two joined handles exactly when it occurs in one of them. */
  lemma WordInJoined(src: string, tgt: string, w: string)
    requires '-' !in w
    ensures Contains(src + "-" + tgt, w) <==> Contains(src, w) || Contains(tgt, w)
  {
    if Contains(src, w) {
      ContainsInConcat(src, "-", w);
      ContainsInConcat(src + "-", tgt, w);
    } else if Contains(tgt, w) {
      ContainsInConcat(src + "-", tgt, w);
    }
    if Contains(src + "-" + tgt, w) {
      ContainsAcrossDash(src, tgt, w);
    }
  }

  /** The six handle names a member node offers. */
  const CanvasHandles: seq<string> :=
    ["child", "parent", "spouse-source", "spouse-target", "sibling-source", "sibling-target"]

  predicate IsSpouseHandle(h: string) {
    h == "spouse-source" || h == "spouse-target"
  }

  predicate IsSiblingHandle(h: string) {
    h == "sibling-source" || h == "sibling-target"
  }

  /** Which of the two words each canvas handle name holds. */
  lemma CanvasHandleWords(h: string)
    requires h in CanvasHandles
    ensures Contains(h, "spouse") <==> IsSpouseHandle(h)
    ensures Contains(h, "sibling") <==> IsSiblingHandle(h)
  {
    if IsSpouseHandle(h) {
      assert OccursAt(h, "spouse", 0);
    } else {
      NoPairNotContains(h, "spouse");
    }
    if IsSiblingHandle(h) {
      assert OccursAt(h, "sibling", 0);
    } else {
      NoPairNotContains(h, "sibling");
    }
  }

  /**
   * Every connection drawn between two canvas handles, mixed pairs
   * included: spouse when either end is a spouse handle, otherwise
   * sibling when either end is a sibling handle, otherwise parent.
   */
  lemma InferTypeOnCanvasHandles(src: string, tgt: string)
    requires src in CanvasHandles && tgt in CanvasHandles
    ensures InferType(Some(src), Some(tgt)) ==
      if IsSpouseHandle(src) || IsSpouseHandle(tgt) then Spouse
      else if IsSiblingHandle(src) || IsSiblingHandle(tgt) then Sibling
      else Parent
  {
    InferTypeRule(Some(src), Some(tgt));
    CanvasHandleWords(src);
    CanvasHandleWords(tgt);
  }

  /** A parent edge's joined handles hold neither word. */
  lemma ParentHandleWords()
    ensures !Contains("child-parent", "spouse") && !Contains("child-parent", "sibling")
  {
    NoPairNotContains("child-parent", "spouse");
    NoPairNotContains("child-parent", "sibling");
  }

  /** A sibling edge's joined handles hold "sibling" but not "spouse". */
  lemma SiblingHandleWords()
    ensures !Contains("sibling-source-sibling-target", "spouse")
    ensures Contains("sibling-source-sibling-target", "sibling")
  {
    NoPairNotContains("sibling-source-sibling-target", "spouse");
    assert OccursAt("sibling-source-sibling-target", "sibling", 0);
  }

  /** The kind of a connection whose joined handles are those of a parent edge. */
  lemma InferParent(src: Option<string>, tgt: Option<string>)
    requires src == Some("child") && tgt == Some("parent")
    ensures InferType(src, tgt) == Parent
  {
    ParentHandleWords();
    assert JoinedHandles(src, tgt) == "child-parent";
  }

  lemma InferSpouse(src: Option<string>, tgt: Option<string>)
    requires src == Some("spouse-source") && tgt == Some("spouse-target")
    ensures InferType(src, tgt) == Spouse
  {
    assert JoinedHandles(src, tgt)[..6] == "spouse";
    assert OccursAt(JoinedHandles(src, tgt), "spouse", 0);
  }

  lemma InferSibling(src: Option<string>, tgt: Option<string>)
    requires src == Some("sibling-source") && tgt == Some("sibling-target")
    ensures InferType(src, tgt) == Sibling
  {
    assert JoinedHandles(src, tgt) == "sibling-source-sibling-target";
    InferSiblingJoined(src, tgt);
  }

  lemma InferSiblingJoined(src: Option<string>, tgt: Option<string>)
    requires JoinedHandles(src, tgt) == "sibling-source-sibling-target"
    ensures InferType(src, tgt) == Sibling
  {
    SiblingHandleWords();
  }

  /** Reading the kind back from the handles an edge is drawn with gives the edge's own kind. */
  lemma InferTypeReadsEdgeHandles(kind: RelKind)
    ensures InferType(Some(EdgeHandles(kind).source), Some(EdgeHandles(kind).target)) == kind
  {
    var src, tgt := Some(EdgeHandles(kind).source), Some(EdgeHandles(kind).target);
    match kind
    case Parent =>
      InferParent(src, tgt);
    case Spouse =>
      InferSpouse(src, tgt);
    case Sibling =>
      InferSibling(src, tgt);
  }

  /** The edges the canvas starts with: none for an empty tree, otherwise one per relationship, in order. */
  function InitialEdges(members: seq<Member>, rels: seq<Relationship>): seq<Edge> {
    if members == [] then []
    else seq(|rels|, i requires 0 <= i < |rels| => RelationshipEdge(rels[i]))
  }

  /**
   * Every edge of the opening canvas joins the two ends of its
   * relationship, from a to b, under the relationship's id, and reading
   * the kind back from its handles gives the relationship's kind.
   */
  lemma InitialEdgesReadBack(members: seq<Member>, rels: seq<Relationship>)
    ensures members == [] ==> InitialEdges(members, rels) == []
    ensures members != [] ==> |InitialEdges(members, rels)| == |rels|
    ensures members != [] ==> forall i :: 0 <= i < |rels| ==>
      var e := InitialEdges(members, rels)[i];
      e.id == rels[i].id && e.source == rels[i].aId && e.target == rels[i].bId &&
      InferType(Some(e.handles.source), Some(e.handles.target)) == rels[i].kind
  {
    forall i | 0 <= i < |rels|
      ensures InferType(Some(EdgeHandles(rels[i].kind).source), Some(EdgeHandles(rels[i].kind).target)) == rels[i].kind
    {
      InferTypeReadsEdgeHandles(rels[i].kind);
    }
  }

  // ---------------------------------------------------------------------
  // Adding a relative from the menu

  /** What the new node is to the selected one. */
  datatype RelativeKind = ParentRelative | SpouseRelative | ChildRelative | SiblingRelative

  function RelativeName(kind: RelativeKind): string {
    match kind
    case ParentRelative => "parent"
    case SpouseRelative => "spouse"
    case ChildRelative => "child"
    case SiblingRelative => "sibling"
  }

  /** Where the new node is drawn, relative to the selected node. */
  function Offset(kind: RelativeKind): Position {
    match kind
    case ParentRelative => Position(0, -200)
    case ChildRelative => Position(0, 200)
    case SpouseRelative => Position(250, 0)
    case SiblingRelative => Position(200, 0)
  }

  /** The stored kind: a child or a parent relative is a parent relationship. */
  function PersistKind(kind: RelativeKind): RelKind {
    match kind
    case ParentRelative => Parent
    case ChildRelative => Parent
    case SpouseRelative => Spouse
    case SiblingRelative => Sibling
  }

  /** The relationship handed over to be saved (a partial relationship row). */
  datatype RelationshipDraft = RelationshipDraft(aId: Id, bId: Id, kind: RelKind)

  /** The canvas after adding a relative, with the member and relationship handed over to be saved. */
  datatype AddedRelative = AddedRelative(
    nodes: seq<FlowNode>,
    edges: seq<Edge>,
    memberName: string,
    relationship: RelationshipDraft)

  /**
   * Adds a node for the new relative next to the selected node, and one
   * edge from `a` to `b`, which is also the relationship handed over.
   * Nothing happens when no node has the selected id. `newNodeId` and
   * `edgeId` are the fresh identifiers the canvas generates.
   */
  function Connect(nodes: seq<FlowNode>, edges: seq<Edge>, selectedId: Id, kind: RelativeKind,
                   newNodeId: Id, edgeId: Id, a: Id, b: Id): (r: Option<AddedRelative>)
    ensures r.None? <==> IndexOf(nodes, selectedId).None?
    ensures r.Some? ==>
      var selected := nodes[IndexOf(nodes, selectedId).value];
      var name := "New " + RelativeName(kind);
      r.value.nodes == nodes + [FlowNode(newNodeId, Position(selected.position.x + Offset(kind).x,
                                                             selected.position.y + Offset(kind).y),
                                         NewRelativeData(name))] &&
      r.value.edges == edges + [Edge(edgeId, a, b, EdgeHandles(PersistKind(kind)))] &&
      r.value.memberName == name &&
      r.value.relationship == RelationshipDraft(a, b, PersistKind(kind))
  {
    match IndexOf(nodes, selectedId)
    case None => None
    case Some(k) =>
      var selected := nodes[k];
      var name := "New " + RelativeName(kind);
      var offset := Offset(kind);
      var node := FlowNode(newNodeId, Position(selected.position.x + offset.x, selected.position.y + offset.y),
                           NewRelativeData(name));
      Some(AddedRelative(nodes + [node], edges + [Edge(edgeId, a, b, EdgeHandles(PersistKind(kind)))],
                         name, RelationshipDraft(a, b, PersistKind(kind))))
  }

  /** As the canvas does it: the edge and the relationship always go from the selected node to the new one. */
  function AddRelativeAsWritten(nodes: seq<FlowNode>, edges: seq<Edge>, selectedId: Id, kind: RelativeKind,
                                newNodeId: Id, edgeId: Id): Option<AddedRelative> {
    Connect(nodes, edges, selectedId, kind, newNodeId, edgeId, selectedId, newNodeId)
  }

  /** A new parent is the parent: its edge and relationship go from the new node to the selected one. */
  function AddRelative(nodes: seq<FlowNode>, edges: seq<Edge>, selectedId: Id, kind: RelativeKind,
                       newNodeId: Id, edgeId: Id): Option<AddedRelative> {
    if kind == ParentRelative then Connect(nodes, edges, selectedId, kind, newNodeId, edgeId, newNodeId, selectedId)
    else Connect(nodes, edges, selectedId, kind, newNodeId, edgeId, selectedId, newNodeId)
  }

  /** The position of the first node with the id. */
  function PositionOf(nodes: seq<FlowNode>, id: Id): Option<Position> {
    match IndexOf(nodes, id)
    case None => None
    case Some(k) => Some(nodes[k].position)
  }

  /**
   * As written, a new parent is saved as the selected member's child:
   * the relationship names the selected member as the parent (a) of the
   * new one (b), while the new node is drawn 200 above the selected one.
   */
  lemma AddParentAsWrittenInverted(nodes: seq<FlowNode>, edges: seq<Edge>, selectedId: Id, newNodeId: Id, edgeId: Id)
    requires IndexOf(nodes, selectedId).Some? && IndexOf(nodes, newNodeId).None?
    ensures var r := AddRelativeAsWritten(nodes, edges, selectedId, ParentRelative, newNodeId, edgeId);
      r.Some? && r.value.relationship == RelationshipDraft(selectedId, newNodeId, Parent) &&
      PositionOf(r.value.nodes, selectedId).Some? && PositionOf(r.value.nodes, newNodeId).Some? &&
      PositionOf(r.value.nodes, selectedId).value.y == PositionOf(r.value.nodes, newNodeId).value.y + 200
  {
    var r := AddRelativeAsWritten(nodes, edges, selectedId, ParentRelative, newNodeId, edgeId);
    AppendedNodeIsFound(nodes, r.value.nodes[|nodes|], selectedId, newNodeId);
  }

  /** Adding a node whose id is new keeps every existing lookup and makes the new id findable at the end. */
  lemma AppendedNodeIsFound(nodes: seq<FlowNode>, node: FlowNode, id: Id, newId: Id)
    requires node.id == newId && IndexOf(nodes, newId).None?
    ensures IndexOf(nodes + [node], id) == (if IndexOf(nodes, id).Some? then IndexOf(nodes, id)
                                            else if id == newId then Some(|nodes|) else None)
  {
    var all := nodes + [node];
    var r := IndexOf(all, id);
    assert forall k :: 0 <= k < |nodes| ==> all[k] == nodes[k];
    match IndexOf(nodes, id)
    case Some(k) =>
      assert all[k].id == id;
      assert r.Some? && r.value <= k;
    case None =>
      if id == newId {
        assert all[|nodes|].id == id;
        assert r.Some? && r.value >= |nodes|;
      } else {
        assert forall k :: 0 <= k < |all| ==> all[k].id != id;
      }
  }

  /**
   * With a new parent drawn above and a new child drawn below, the saved
   * parent relationship always names as parent (a) the node drawn 200
   * above the child (b); a spouse or sibling is drawn on the same row as
   * the selected node and is saved from it (a) to the new one (b).
   */
  lemma AddRelativeMatchesPicture(nodes: seq<FlowNode>, edges: seq<Edge>, selectedId: Id, kind: RelativeKind,
                                  newNodeId: Id, edgeId: Id)
    requires IndexOf(nodes, selectedId).Some? && IndexOf(nodes, newNodeId).None?
    ensures var r := AddRelative(nodes, edges, selectedId, kind, newNodeId, edgeId);
      r.Some? &&
      var d := r.value.relationship;
      PositionOf(r.value.nodes, d.aId).Some? && PositionOf(r.value.nodes, d.bId).Some? &&
      (d.kind == Parent ==> PositionOf(r.value.nodes, d.aId).value.y + 200 == PositionOf(r.value.nodes, d.bId).value.y) &&
      (d.kind != Parent ==> d.aId == selectedId && d.bId == newNodeId &&
                            PositionOf(r.value.nodes, d.aId).value.y == PositionOf(r.value.nodes, d.bId).value.y)
  {
    var r := AddRelative(nodes, edges, selectedId, kind, newNodeId, edgeId);
    AppendedNodeIsFound(nodes, r.value.nodes[|nodes|], selectedId, newNodeId);
    AppendedNodeIsFound(nodes, r.value.nodes[|nodes|], newNodeId, newNodeId);
  }

  /**
   * The edge drawn for a new relative joins the two ends of the saved
   * relationship, and reading its kind back from its handles gives the
   * saved kind.
   */
  lemma AddRelativeEdgeReadsBack(nodes: seq<FlowNode>, edges: seq<Edge>, selectedId: Id, kind: RelativeKind,
                                 newNodeId: Id, edgeId: Id)
    requires IndexOf(nodes, selectedId).Some?
    ensures var r := AddRelative(nodes, edges, selectedId, kind, newNodeId, edgeId);
      r.Some? && |r.value.edges| == |edges| + 1 &&
      var e := r.value.edges[|edges|];
      e.source == r.value.relationship.aId && e.target == r.value.relationship.bId &&
      InferType(Some(e.handles.source), Some(e.handles.target)) == r.value.relationship.kind
  {
    InferTypeReadsEdgeHandles(PersistKind(kind));
  }

  /**
   * The same holds for the code as written: the edge it draws also joins
   * the saved relationship's two ends, and its handles read back as the
   * saved kind (the reversal for a parent is in both the edge and the row).
   */
  lemma AddRelativeAsWrittenEdgeReadsBack(nodes: seq<FlowNode>, edges: seq<Edge>, selectedId: Id, kind: RelativeKind,
                                          newNodeId: Id, edgeId: Id)
    requires IndexOf(nodes, selectedId).Some?
    ensures var r := AddRelativeAsWritten(nodes, edges, selectedId, kind, newNodeId, edgeId);
      r.Some? && |r.value.edges| == |edges| + 1 &&
      var e := r.value.edges[|edges|];
      e.source == r.value.relationship.aId && e.target == r.value.relationship.bId &&
      InferType(Some(e.handles.source), Some(e.handles.target)) == r.value.relationship.kind
  {
    InferTypeReadsEdgeHandles(PersistKind(kind));
  }
}
