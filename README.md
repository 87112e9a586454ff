# Family tree: stores, builder layout and view graph

A Dafny model of the core of a family-tree web application. Users record members of a family and pairwise relationships between them (parent, spouse, sibling) and edit them on a canvas. The model covers:

- **The tree store** (`TreeStore`). This is the in-memory state of the open tree. Its actions add, update and remove members and relationships and reset the state. Removing a member also removes every relationship and derived relationship that names the member.
- **The user store** (`UserStore`). This holds the user's list of trees and the open tree. Its actions add, update and remove trees, and the open tree follows every update and removal.
- **The hierarchical layout of the builder canvas** (`HierarchicalLayout`). It builds a parent→children map and a two-way spouse map. The roots are the nodes that are nobody's child. It walks depth first from each root, with a visited set:
  - roots sit 400 apart on row 0;
  - the children of a node at (x, y) sit on row y + 200, 300 apart and centred under x;
  - each spouse that is not yet visited is moved to (x + 250, y) without being marked visited.

  The functions define the result. The class `Placement` and the method `ApplyHierarchicalLayout` compute it in place on an array of nodes, as the application does.
- **The rest of the builder canvas** (`TreeBuilder`):
  - the nodes and edges the canvas opens with (a "You" placeholder for an empty tree, default positions, and the choice between saved positions and the layout);
  - the handles each relationship kind is drawn between;
  - the kind a hand-drawn connection is given from its handle names;
  - where a relative added from the menu is drawn and which relationship is handed over to be saved.
- **The graph the tree view builds** (`ConnectionGraph`). It has one node per distinct member id, with an adjacency list per node. A spouse relationship is entered on both ends; any other kind only on its `a` end.

Store actions and the layout are modelled as imperative code: classes whose methods update fields, an array updated in place, and loops with invariants. Each is proved equal to a function of the old state. The properties are proved about those functions.

The model follows the code where the code and the design of the system differ. In the design, adding a relationship rejects self-relations, duplicates, spouse/sibling clashes and parent cycles, and named relationships (grandparent, cousin, in-law) are derived from the stored ones. The code does none of this: the stores append and filter without any check. `TreeStore.AddRelationshipUnchecked` states this behaviour, and relationship derivation is not part of this model.

The design also places spouses next to their partner. The code does not mark a spouse placed this way as visited, so a spouse who is also a root is moved again to a root slot. `HierarchicalLayout.SpouseRootsTakeRootSlots` shows this.

Supporting modules:

- `Wrappers` has an `Option` type.
- `Lists` has the JavaScript `filter` and the selective `map` that the stores use.
- `FamilyTypes` has the records and the spread of a partial update over a record.

## Model

| member | source | states |
|---|---|---|
| Lists.Filter | src/stores/treeStore.ts:68 | the filtered list is no longer than the list and holds only kept elements of it |
| Lists.FilterRanks | src/stores/treeStore.ts:68 | filtering keeps exactly the kept elements, each at the slot given by the number of kept elements before it, so their relative order is preserved |
| Lists.FilterMembership | src/stores/treeStore.ts:68-73 | an element survives the filter exactly when it was in the list and is kept |
| Lists.FilterIdempotent | src/stores/treeStore.ts:68 | filtering twice by the same test equals filtering once |
| Lists.FilterAppend | src/stores/treeStore.ts:58 | filtering a concatenation equals concatenating the filtered parts |
| Lists.MapWhere | src/stores/treeStore.ts:62-64 | same length; each selected element is replaced by its update, every other element is unchanged and in place |
| Lists.MapWhereIdempotent | src/stores/treeStore.ts:62-64 | when the update is idempotent, applying the selective map twice equals applying it once |
| Lists.FilterAfterMapWhere | src/stores/treeStore.ts:61-75 | filtering out the selected elements after updating them equals filtering them out before |
| FamilyTypes.OverlayMember | src/stores/treeStore.ts:63 | definition: each field the update supplies replaces the member's field; every other field is kept |
| FamilyTypes.OverlayTree | src/stores/userStore.ts:47 | definition: each field the update supplies replaces the tree's field; every other field is kept |
| FamilyTypes.OverlayMemberIdempotent | src/stores/treeStore.ts:63 | spreading the same partial member twice equals spreading it once |
| FamilyTypes.OverlayTreeIdempotent | src/stores/userStore.ts:47 | spreading the same partial tree twice equals spreading it once |
| TreeStore.InitialState | src/stores/treeStore.ts:31-42 | definition: no open tree, no members, relationships or derived relationships, no selection, an empty search, zoom 1, pan (0, 0), not loading, no error |
| TreeStore.WithMemberAdded | src/stores/treeStore.ts:57-59 | the member is appended at the end, earlier members are unchanged and in order, and no other field changes |
| TreeStore.WithMemberUpdated | src/stores/treeStore.ts:61-65 | same length and order; members with the id get the update spread over them, all others are unchanged, and no other field changes |
| TreeStore.WithMemberRemoved | src/stores/treeStore.ts:67-75 | no member with the id, no relationship and no derived relationship naming it is left; only those three lists change |
| TreeStore.WithRelationshipAdded | src/stores/treeStore.ts:77-79 | the relationship is appended unchanged after the existing ones; nothing else changes |
| TreeStore.WithRelationshipRemoved | src/stores/treeStore.ts:81-83 | no relationship with the id is left; members and derived relationships are untouched |
| TreeStore.RemoveMemberKeepsOthers | src/stores/treeStore.ts:67-75 | removal keeps exactly the members, relationships and derived relationships that do not name the member, and in each of the three lists those that stay keep their order and their duplicates (each at its rank among the staying ones) |
| TreeStore.RemoveMemberIdempotent | src/stores/treeStore.ts:67-75 | removing a member twice equals removing it once |
| TreeStore.RemoveRelationshipKeepsOthers | src/stores/treeStore.ts:81-83 | removal keeps exactly the relationships with another id, in their order and with their duplicates (each at its rank among the staying ones) |
| TreeStore.RemoveRelationshipIdempotent | src/stores/treeStore.ts:81-83 | removing a relationship twice equals removing it once |
| TreeStore.AddThenRemoveMember | src/stores/treeStore.ts:57-75 | adding a member and then removing its id equals removing the id alone |
| TreeStore.UpdateMemberIdempotent | src/stores/treeStore.ts:61-65 | applying the same update twice equals applying it once, even an update that changes the id |
| TreeStore.UpdateThenRemoveMember | src/stores/treeStore.ts:61-75 | an update that keeps the id is lost when the member is removed: update then remove equals remove |
| TreeStore.RemoveMemberKeepsRelationshipsResolved | src/stores/treeStore.ts:67-75 | if every relationship names two members before a removal, that still holds after it |
| TreeStore.AddRelationshipUnchecked | src/stores/treeStore.ts:77-79 | a relationship is appended even if it is a duplicate (its count goes up by one); the relationships stay resolved exactly when they were and the new one names two members |
| TreeStore.Store.constructor | src/stores/treeStore.ts:31-47 | the store starts in the initial state: no tree, empty lists, no selection, empty search, zoom 1, pan (0, 0), not loading, no error |
| TreeStore.Store.AddMember | src/stores/treeStore.ts:57-59 | the new state is the old state with the member added |
| TreeStore.Store.UpdateMember | src/stores/treeStore.ts:61-65 | the new state is the old state with the member updated |
| TreeStore.Store.RemoveMember | src/stores/treeStore.ts:67-75 | the new state is the old state with the member and everything naming it removed |
| TreeStore.Store.AddRelationship | src/stores/treeStore.ts:77-79 | the new state is the old state with the relationship appended |
| TreeStore.Store.RemoveRelationship | src/stores/treeStore.ts:81-83 | the new state is the old state with the relationship removed |
| TreeStore.Store.Reset | src/stores/treeStore.ts:97 | the new state is the initial state |
| UserStore.InitialState | src/stores/userStore.ts:19-26 | definition: no user, no trees, no open tree, no permissions, not loading, no error |
| UserStore.WithTreeAdded | src/stores/userStore.ts:41-43 | the new tree comes first and the existing trees follow in order; nothing else changes |
| UserStore.WithTreeUpdated | src/stores/userStore.ts:45-52 | trees with the id get the update and the others are unchanged, in place; the open tree is updated exactly when it has the id |
| UserStore.WithTreeRemoved | src/stores/userStore.ts:54-57 | no tree with the id is left; the open tree is closed exactly when it has the id and otherwise stays as it was |
| UserStore.RemoveTreeKeepsOthers | src/stores/userStore.ts:54-57 | removal keeps exactly the trees with another id, in their order (each at its rank among the staying ones) |
| UserStore.RemoveTreeIdempotent | src/stores/userStore.ts:54-57 | removing a tree twice equals removing it once |
| UserStore.AddThenRemoveTree | src/stores/userStore.ts:41-57 | adding a tree and then removing its id equals removing the id alone |
| UserStore.UpdateTreeIdempotent | src/stores/userStore.ts:45-52 | applying the same update twice equals applying it once, for the list and the open tree |
| UserStore.TreeActionsKeepCurrentTreeListed | src/stores/userStore.ts:41-57 | if the open tree is one of the listed trees, it still is after adding, updating or removing a tree |
| UserStore.Store.constructor | src/stores/userStore.ts:19-31 | the store starts with no user, no trees, no open tree, no permissions, not loading and no error |
| UserStore.Store.AddTree | src/stores/userStore.ts:41-43 | the new state is the old state with the tree added |
| UserStore.Store.UpdateTree | src/stores/userStore.ts:45-52 | the new state is the old state with the tree updated |
| UserStore.Store.RemoveTree | src/stores/userStore.ts:54-57 | the new state is the old state with the tree removed |
| UserStore.Store.Reset | src/stores/userStore.ts:63 | the new state is the initial state |
| HierarchicalLayout.MapsOf | src/components/FamilyTreeBuilder.tsx:44-55 | definition: one pass over the relationships in order; a parent relationship appends b to a's children, a spouse relationship appends each end to the other's spouses, a sibling relationship adds nothing |
| HierarchicalLayout.RootNodes | src/components/FamilyTreeBuilder.tsx:57-59 | definition: the nodes, in order, whose id is no parent relationship's child |
| HierarchicalLayout.IndexOf | src/components/FamilyTreeBuilder.tsx:69 | the lookup by id finds the first node with that id, or reports that no node has it |
| HierarchicalLayout.PlaceNode | src/components/FamilyTreeBuilder.tsx:65-93 | placement from a node never un-visits an id |
| HierarchicalLayout.PlaceChildren | src/components/FamilyTreeBuilder.tsx:78-82 | definition: the children in order, the j-th of k placed from x − (k−1)·150 + 300·j on the row given, each seeing the visits of those before it |
| HierarchicalLayout.PlaceSpouses | src/components/FamilyTreeBuilder.tsx:85-92 | spouse placement marks nothing visited |
| HierarchicalLayout.PlaceRoots | src/components/FamilyTreeBuilder.tsx:96-100 | placing the roots never un-visits an id |
| HierarchicalLayout.ChildEdgeIff | src/components/FamilyTreeBuilder.tsx:45-48 | c is among a's children in the map exactly when some parent relationship goes from a to c |
| HierarchicalLayout.SpouseEdgeIff | src/components/FamilyTreeBuilder.tsx:49-54 | v is among u's spouses exactly when some spouse relationship joins u and v in either direction |
| HierarchicalLayout.MapsChildrenWithin | src/components/FamilyTreeBuilder.tsx:45-58 | every child in the children map is the child end of a parent relationship |
| HierarchicalLayout.MapsIgnoreSiblings | src/components/FamilyTreeBuilder.tsx:45-55 | sibling relationships do not reach the maps |
| HierarchicalLayout.LayoutIgnoresSiblings | src/components/FamilyTreeBuilder.tsx:39-103 | dropping the sibling relationships leaves the layout unchanged |
| HierarchicalLayout.PlaceSpousesShape | src/components/FamilyTreeBuilder.tsx:85-92 | spouse placement keeps ids, data and order, leaves visited ids alone, and moves only the first node of an unvisited spouse id |
| HierarchicalLayout.PlaceSpousesKeepNodes | src/components/FamilyTreeBuilder.tsx:85-92 | spouse placement changes positions only |
| HierarchicalLayout.PlaceNodeShape | src/components/FamilyTreeBuilder.tsx:65-93 | placement from a node changes positions only, never touches an already visited node, and visits only that node and ids that are children |
| HierarchicalLayout.PlaceChildrenShape | src/components/FamilyTreeBuilder.tsx:78-82 | the children loop changes positions only, never touches a visited node, and visits only the listed children and their descendants |
| HierarchicalLayout.PlaceRootsShape | src/components/FamilyTreeBuilder.tsx:96-100 | the roots loop changes positions only and visits only roots and children |
| HierarchicalLayout.PlaceNodeSetsOwn | src/components/FamilyTreeBuilder.tsx:65-72 | an unvisited node with a node in the list ends at the position it was given and is then visited |
| HierarchicalLayout.PlaceNodeMoves | src/components/FamilyTreeBuilder.tsx:65-93 | a moved node is the first node of its id, and that id was visited or is the spouse of a visited id |
| HierarchicalLayout.PlaceChildrenMoves | src/components/FamilyTreeBuilder.tsx:78-82 | the same for the children loop |
| HierarchicalLayout.PlaceRootsMoves | src/components/FamilyTreeBuilder.tsx:96-100 | the same for the roots loop |
| HierarchicalLayout.PlaceNodeReach | src/components/FamilyTreeBuilder.tsx:65-93 | placement from a node visits only ids in any child-closed set that contains it |
| HierarchicalLayout.PlaceChildrenReach | src/components/FamilyTreeBuilder.tsx:78-82 | the same for a list of children |
| HierarchicalLayout.PlaceRootsReach | src/components/FamilyTreeBuilder.tsx:96-100 | the same for the roots |
| HierarchicalLayout.PlaceChildrenSlot | src/components/FamilyTreeBuilder.tsx:78-82 | the j-th of k children that is still unvisited at its turn ends at x − (k−1)·150 + 300·j on the row below |
| HierarchicalLayout.ChildRowCentred | src/components/FamilyTreeBuilder.tsx:78-82 | the children's slots are symmetric about the parent's x |
| HierarchicalLayout.PlaceSpousesSets | src/components/FamilyTreeBuilder.tsx:85-92 | every unvisited spouse that has a node ends at (x + 250, y) and stays unvisited |
| HierarchicalLayout.PlaceRootsSlot | src/components/FamilyTreeBuilder.tsx:96-100 | the i-th root, if no earlier root has its id, ends at (400·i, 0), and nothing placed later moves it |
| HierarchicalLayout.RootNodesIff | src/components/FamilyTreeBuilder.tsx:57-59 | a node is a root exactly when no parent relationship has it as the child |
| HierarchicalLayout.LayoutKeepsNodes | src/components/FamilyTreeBuilder.tsx:62-102 | the layout returns the same nodes (ids, data, order); only positions change |
| HierarchicalLayout.LayoutMovesOnlyReached | src/components/FamilyTreeBuilder.tsx:62-102 | a node moves only if it is the first of its id and the id is reachable from a root through parent relationships, or is the spouse of such an id |
| HierarchicalLayout.LayoutPlacesRoots | src/components/FamilyTreeBuilder.tsx:95-100 | the i-th root, unless an earlier root has its id, ends at (400·i, 0) |
| HierarchicalLayout.SpouseRootsTakeRootSlots | src/components/FamilyTreeBuilder.tsx:84-100 | two parentless spouses end at (0, 0) and (400, 0): the spouse move to (250, 0) is undone by the second root's own turn |
| HierarchicalLayout.BuildLayoutMaps | src/components/FamilyTreeBuilder.tsx:44-55 | the loop over the relationships builds exactly the children and spouse maps defined above |
| HierarchicalLayout.FindIndex | src/components/FamilyTreeBuilder.tsx:69 | the search of the node array returns the index of the first node with the id, or none |
| HierarchicalLayout.Placement.constructor | src/components/FamilyTreeBuilder.tsx:62-63 | placement starts over the shared node array with nothing visited |
| HierarchicalLayout.Placement.PositionNode | src/components/FamilyTreeBuilder.tsx:65-93 | the recursive placement leaves the array and the visited set as PlaceNode defines |
| HierarchicalLayout.Placement.PositionChildren | src/components/FamilyTreeBuilder.tsx:78-82 | the children loop leaves them as PlaceChildren defines |
| HierarchicalLayout.Placement.PositionSpouses | src/components/FamilyTreeBuilder.tsx:85-92 | the spouses loop leaves them as PlaceSpouses defines |
| HierarchicalLayout.Placement.PositionRoots | src/components/FamilyTreeBuilder.tsx:95-100 | the roots loop leaves them as PlaceRoots defines |
| HierarchicalLayout.HierarchicalLayout | src/components/FamilyTreeBuilder.tsx:39-103 | definition: build the maps, then place the roots in order from an empty visited set over the nodes as given; the resulting node list |
| HierarchicalLayout.ApplyHierarchicalLayout | src/components/FamilyTreeBuilder.tsx:39-103 | the in-place layout returns exactly HierarchicalLayout(nodes, relationships) |
| TreeBuilder.MemberNode | src/components/FamilyTreeBuilder.tsx:222-230 | definition: the i-th member's node, with its id and data, at each saved coordinate, a missing x at i·200 − (n−1)·100 and a missing y at 0 |
| TreeBuilder.UsesHierarchicalLayout | src/components/FamilyTreeBuilder.tsx:265 | definition: the layout runs exactly when there are members and relationships and no member has both coordinates saved |
| TreeBuilder.MemberNodes | src/components/FamilyTreeBuilder.tsx:222-230 | one node per member, in order, with the member's id and the member as data |
| TreeBuilder.InitialNodes | src/components/FamilyTreeBuilder.tsx:202-274 | an empty tree opens with the single "You" placeholder at (0, 0); otherwise the canvas opens with the member nodes, in order, with only positions possibly changed |
| TreeBuilder.InitialNodesWithoutLayout | src/components/FamilyTreeBuilder.tsx:222-274 | without relationships, or when any member has both coordinates saved, each saved coordinate is used; a missing x is i·200 − (n−1)·100 and a missing y is 0 |
| TreeBuilder.InitialNodesPlaceRoots | src/components/FamilyTreeBuilder.tsx:265-271 | with the layout, the i-th parentless member (unless an earlier one has its id) opens at (400·i, 0) |
| TreeBuilder.DefaultRowCentred | src/components/FamilyTreeBuilder.tsx:226 | the default row is symmetric about x = 0 |
| TreeBuilder.EdgeHandles | src/components/FamilyTreeBuilder.tsx:235-244 | definition: parent edges go from "child" to "parent", spouse edges from "spouse-source" to "spouse-target", sibling edges from "sibling-source" to "sibling-target" |
| TreeBuilder.InitialEdges | src/components/FamilyTreeBuilder.tsx:233-263 | definition: none for an empty tree, otherwise one edge per relationship, in order, from a to b under its id with its kind's handles |
| TreeBuilder.InitialEdgesReadBack | src/components/FamilyTreeBuilder.tsx:233-263 | an empty tree opens with no edges; otherwise one edge per relationship, in order, from a to b under its id, whose handles read back as its kind |
| TreeBuilder.InferType | src/components/FamilyTreeBuilder.tsx:282-287 | definition: join the two handles (a missing one as empty) with a dash; spouse if the result holds "spouse", otherwise sibling if it holds "sibling", otherwise parent |
| TreeBuilder.ContainsInConcat | src/components/FamilyTreeBuilder.tsx:283-284 | a word in either handle is in the joined handle string |
| TreeBuilder.ContainsAcrossDash | src/components/FamilyTreeBuilder.tsx:283-284 | a dash-free word in the joined handle string is in one of the two handles |
| TreeBuilder.WordInJoined | src/components/FamilyTreeBuilder.tsx:283-284 | a dash-free word is in the joined handle string exactly when it is in one of the handles |
| TreeBuilder.InferTypeRule | src/components/FamilyTreeBuilder.tsx:282-287 | for any two handles: spouse exactly when either names "spouse", otherwise sibling exactly when either names "sibling", otherwise parent |
| TreeBuilder.CanvasHandleWords | src/components/FamilyTreeBuilder.tsx:235-244 | of the six handle names, exactly the spouse handles hold "spouse" and exactly the sibling handles hold "sibling" |
| TreeBuilder.InferTypeOnCanvasHandles | src/components/FamilyTreeBuilder.tsx:282-287 | every pair of canvas handles, mixed pairs included: spouse if either end is a spouse handle, otherwise sibling if either is a sibling handle, otherwise parent |
| TreeBuilder.SpouseHandleWins | src/components/FamilyTreeBuilder.tsx:282-287 | a connection with "spouse" in either handle name is a spouse relationship, whatever the other handle is |
| TreeBuilder.InferParent | src/components/FamilyTreeBuilder.tsx:282-287 | the handles child→parent give a parent relationship |
| TreeBuilder.InferSpouse | src/components/FamilyTreeBuilder.tsx:282-287 | the spouse handles give a spouse relationship |
| TreeBuilder.InferSibling | src/components/FamilyTreeBuilder.tsx:282-287 | the sibling handles give a sibling relationship |
| TreeBuilder.InferTypeReadsEdgeHandles | src/components/FamilyTreeBuilder.tsx:235-287 | the kind read from the handles of each kind's edge is that kind |
| TreeBuilder.Offset | src/components/FamilyTreeBuilder.tsx:321-326 | definition: a parent 200 above, a child 200 below, a spouse 250 to the right, a sibling 200 to the right |
| TreeBuilder.PersistKind | src/components/FamilyTreeBuilder.tsx:384 | definition: a child is saved as a parent relationship; every other kind as itself |
| TreeBuilder.Connect | src/components/FamilyTreeBuilder.tsx:316-390 | nothing happens exactly when no node has the selected id; otherwise one node is appended at the selected position plus the kind's offset, named "New <kind>", one edge with the saved kind's handles is appended, and the same ends and kind are handed over to be saved, with a child saved as a parent relationship |
| TreeBuilder.AddRelativeAsWritten | src/components/FamilyTreeBuilder.tsx:316-390 | as written: `Connect` with the relationship and edge going from the selected node to the new one for every kind |
| TreeBuilder.AddRelative | src/components/FamilyTreeBuilder.tsx:316-390 | corrected: `Connect` as written except that for a new parent the relationship and edge go from the new node to the selected one |
| TreeBuilder.AddParentAsWrittenInverted | src/components/FamilyTreeBuilder.tsx:384-389 | as written, adding a parent saves parent(selected, new) while the new node is drawn 200 above the selected one |
| TreeBuilder.AppendedNodeIsFound | src/components/FamilyTreeBuilder.tsx:317 | after a node with a new id is appended, every earlier lookup is unchanged and the new id is found at the end |
| TreeBuilder.AddRelativeMatchesPicture | src/components/FamilyTreeBuilder.tsx:320-389 | corrected: a saved parent relationship always names as parent the node drawn 200 above the child; a spouse or sibling goes from the selected node to the new one on the same row |
| TreeBuilder.AddRelativeEdgeReadsBack | src/components/FamilyTreeBuilder.tsx:346-389 | corrected: the new edge joins the two ends of the saved relationship, and its handles read back as the saved kind |
| TreeBuilder.AddRelativeAsWrittenEdgeReadsBack | src/components/FamilyTreeBuilder.tsx:346-389 | as written: the new edge joins the two ends of the saved relationship, and its handles read back as the saved kind |
| ConnectionGraph.DistinctIds | src/components/TreeVisualization.tsx:54-64 | the ids of the node map, in order of first insertion: no repeats, and exactly the member ids |
| ConnectionGraph.LastWith | src/components/TreeVisualization.tsx:56-64 | a repeated id keeps the last member with it |
| ConnectionGraph.Contribution | src/components/TreeVisualization.tsx:67-87 | definition: what one relationship adds to node `id`: nothing unless both ends are members; otherwise the forward entry if `id` is its a end, then the reverse "spouse" entry if it is a spouse relationship and `id` is its b end |
| ConnectionGraph.ConnectionsOf | src/components/TreeVisualization.tsx:67-87 | definition: the contributions of the relationships to node `id`, in relationship order |
| ConnectionGraph.Graph | src/components/TreeVisualization.tsx:50-90 | definition: for each distinct member id in first-insertion order, a node at (0, 0) holding the last member with that id and its connections |
| ConnectionGraph.GraphHasOneNodePerMember | src/components/TreeVisualization.tsx:50-64 | no members give no nodes; otherwise there is exactly one node per distinct member id, no two nodes share an id, and each holds the last member with its id at (0, 0) |
| ConnectionGraph.ConnectionIff | src/components/TreeVisualization.tsx:67-87 | a connection is on a node exactly when a relationship with both ends present gives it: forward on its a end, or, for a spouse only, reversed on its b end |
| ConnectionGraph.OnlySpousesAreMutual | src/components/TreeVisualization.tsx:71-85 | a connection that is not a spouse connection comes from a relationship whose a end is the node |
| ConnectionGraph.DanglingAddsNothing | src/components/TreeVisualization.tsx:68-71 | relationships with an end that is not a member add nothing to any node |
| ConnectionGraph.ConnectionsAppend | src/components/TreeVisualization.tsx:67-87 | connections appear in relationship order: a later batch of relationships appends after an earlier one |
| ConnectionGraph.ConnectionCount | src/components/TreeVisualization.tsx:67-87 | the nodes hold one connection per relationship with both ends present, plus one more per such spouse relationship |
| ConnectionGraph.CollectMembers | src/components/TreeVisualization.tsx:54-64 | the members loop leaves one entry per member id, each holding the last member with that id and no connections, and records the ids in first-insertion order |
| ConnectionGraph.Attach | src/components/TreeVisualization.tsx:67-87 | one relationship's turn appends its forward entry to the a node and, for a spouse, its reverse entry to the b node; this holds when a and b are the same node too |
| ConnectionGraph.AddConnections | src/components/TreeVisualization.tsx:67-87 | after the relationships loop, each node's connections are those the relationships give, in order, and nothing else has changed |
| ConnectionGraph.BuildNodes | src/components/TreeVisualization.tsx:50-90 | the node list is exactly the graph defined above |

## Left out

- Derived relationships (grandparent, cousin, in-law) and the validation of new relationships (self-relations, duplicates, spouse/sibling clashes, parent cycles) are not part of this model. The code has neither; the stores only append and filter.
- The store setters that replace one field with a given value (`setMembers`, `setZoom` and so on) are not modelled. Each one is a single assignment.
- The backend reads and writes, the persistence callbacks (`onAddMember`, `onAddRelationship`) and the generation of fresh identifiers are left out. The fresh ids are parameters (`newNodeId`, `edgeId`), and the relationship handed over is part of the result.
- Edge styling (colour, dash, width, z-order), the edge `data.type` field and the React Flow `type` tags are left out. They do not affect positions or saved data.
- The `level` argument of `positionNode` and the unused copy map built at the start of the layout are left out. Neither is read.
- The force-directed layout of the tree view and the drag-stop persistence of positions are left out, as are menus, clicks and rendering.
- Canvas positions are whole numbers. The layout constants are integers and saved positions are stored rounded; floating point is not modelled.
- `TreeBuilder.InferType`: the substring test is modelled as "occurs at some index". Characters are compared as they are; no case folding.
- One member record serves both the stores and the builder canvas: it is the database row, with location, gender and the two saved coordinates. The stores' own member type lacks those four fields; the stores only copy and filter members, so the extra fields change nothing they do.
- `FamilyTypes.MemberUpdate` and `FamilyTypes.TreeUpdate`: a field is either supplied or absent. An update that supplies a required field explicitly as `undefined` (allowed by a partial object) is not modelled; spreading it would leave that field undefined.
- `ConnectionGraph.GraphNode`: the connection type is kept as the relationship's raw string. The source's narrowing cast to 'parent' | 'spouse' does nothing at run time, so a sibling relationship yields a connection of type "sibling".

## Findings

| source | as written | input that shows it | evidently intended | confidence | as-written member | corrected member |
|---|---|---|---|---|---|---|
| src/components/FamilyTreeBuilder.tsx:384-389 | "Add parent" draws the new node 200 above the selected one, but the relationship it saves (and the edge it draws) goes from the selected node to the new one with type parent, which makes the selected member the parent of the new one | select member S and choose "Add parent": the saved relationship is parent(a = S, b = new), while new is drawn above S | a new parent is the parent end: parent(a = new, b = S), edge from the new node to S | not executed | TreeBuilder.AddParentAsWrittenInverted | TreeBuilder.AddRelativeMatchesPicture |
