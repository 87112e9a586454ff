/**
 * The user store: the signed-in user, the trees they can open, the tree
 * currently open and their permissions. `addTree`, `updateTree` and
 * `removeTree` replace `trees` (and `currentTree`) with values computed by
 * prepend, `map` and `filter`; `currentTree` follows the same change.
 */
module UserStore {
  import opened Wrappers
  import opened FamilyTypes
  import opened Lists

  datatype UserState = UserState(
    user: Option<User>,
    trees: seq<Tree>,
    currentTree: Option<Tree>,
    permissions: seq<Permission>,
    isLoading: bool,
    error: Option<string>)

  /** The state the store is created with and `reset` returns to. */
  function InitialState(): UserState {
    UserState(None, [], None, [], false, None)
  }

  function SameTree(id: Id): Tree -> bool {
    (t: Tree) => t.id == id
  }

  function OtherTree(id: Id): Tree -> bool {
    (t: Tree) => t.id != id
  }

  function Overlay(u: TreeUpdate): Tree -> Tree {
    (t: Tree) => OverlayTree(t, u)
  }

  /** True when a tree is open and it has the given id. */
  predicate IsCurrent(st: UserState, id: Id) {
    st.currentTree.Some? && st.currentTree.value.id == id
  }

  /** `addTree`: the new tree comes first, the existing trees follow in their order. */
  function WithTreeAdded(st: UserState, t: Tree): (r: UserState)
    ensures |r.trees| == |st.trees| + 1 && r.trees[0] == t && r.trees[1..] == st.trees
    ensures r == st.(trees := r.trees)
  {
    st.(trees := [t] + st.trees)
  }

  /**
   * `updateTree`: same length and order, trees with other ids unchanged,
   * trees with the id overlaid; the open tree is overlaid exactly when it
   * has the id, and is otherwise left as it was (also when none is open).
   */
  function WithTreeUpdated(st: UserState, id: Id, u: TreeUpdate): (r: UserState)
    ensures |r.trees| == |st.trees|
    ensures forall i :: 0 <= i < |st.trees| && st.trees[i].id != id ==> r.trees[i] == st.trees[i]
    ensures forall i :: 0 <= i < |st.trees| && st.trees[i].id == id ==> r.trees[i] == OverlayTree(st.trees[i], u)
    ensures IsCurrent(st, id) ==> r.currentTree == Some(OverlayTree(st.currentTree.value, u))
    ensures !IsCurrent(st, id) ==> r.currentTree == st.currentTree
    ensures r == st.(trees := r.trees, currentTree := r.currentTree)
  {
    st.(trees := MapWhere(st.trees, SameTree(id), Overlay(u)),
        currentTree := if IsCurrent(st, id) then Some(OverlayTree(st.currentTree.value, u)) else st.currentTree)
  }

  /**
   * `removeTree`: no tree with the id is left, the others stay in order;
   * the open tree is closed exactly when it has the id.
   */
  function WithTreeRemoved(st: UserState, id: Id): (r: UserState)
    ensures forall t :: t in r.trees ==> t.id != id
    ensures r.currentTree.None? <==> st.currentTree.None? || IsCurrent(st, id)
    ensures r.currentTree.Some? ==> r.currentTree == st.currentTree
    ensures r == st.(trees := r.trees, currentTree := r.currentTree)
  {
    st.(trees := Filter(st.trees, OtherTree(id)),
        currentTree := if IsCurrent(st, id) then None else st.currentTree)
  }

  /** The open tree, if any, is one of the listed trees. */
  ghost predicate CurrentTreeListed(st: UserState) {
    st.currentTree.Some? ==> st.currentTree.value in st.trees
  }

  /** `removeTree` keeps exactly the trees with another id. */
  lemma RemoveTreeKeepsOthers(st: UserState, id: Id)
    ensures forall t :: t in WithTreeRemoved(st, id).trees <==> t in st.trees && t.id != id
    // the trees that stay keep their order
    ensures |WithTreeRemoved(st, id).trees| == CountWhere(st.trees, OtherTree(id))
    ensures forall i :: 0 <= i < |st.trees| && st.trees[i].id != id ==>
              var k := CountWhere(st.trees[..i], OtherTree(id));
              k < |WithTreeRemoved(st, id).trees| && WithTreeRemoved(st, id).trees[k] == st.trees[i]
  {
    FilterRanks(st.trees, OtherTree(id));
    FilterMembership(st.trees, OtherTree(id));
  }

  /** Removing a tree twice is the same as removing it once. */
  lemma RemoveTreeIdempotent(st: UserState, id: Id)
    ensures WithTreeRemoved(WithTreeRemoved(st, id), id) == WithTreeRemoved(st, id)
  {
    FilterIdempotent(st.trees, OtherTree(id));
  }

  /**
   * Applying the same update twice is the same as applying it once, for
   * the list and for the open tree, even for an update that changes the id.
   */
  lemma UpdateTreeIdempotent(st: UserState, id: Id, u: TreeUpdate)
    ensures WithTreeUpdated(WithTreeUpdated(st, id, u), id, u) == WithTreeUpdated(st, id, u)
  {
    forall t | t in st.trees && SameTree(id)(t) ensures Overlay(u)(Overlay(u)(t)) == Overlay(u)(t) {
      OverlayTreeIdempotent(t, u);
    }
    MapWhereIdempotent(st.trees, SameTree(id), Overlay(u));
    if IsCurrent(st, id) {
      OverlayTreeIdempotent(st.currentTree.value, u);
    }
  }

  /** Adding a tree and then removing its id leaves what removing the id alone leaves. */
  lemma AddThenRemoveTree(st: UserState, t: Tree)
    ensures WithTreeRemoved(WithTreeAdded(st, t), t.id) == WithTreeRemoved(st, t.id)
  {
    FilterAppend([t], st.trees, OtherTree(t.id));
    assert Filter([t], OtherTree(t.id)) == [];
  }

  /** Adding, updating and removing trees keep the open tree among the listed trees. */
  lemma TreeActionsKeepCurrentTreeListed(st: UserState, t: Tree, id: Id, u: TreeUpdate)
    requires CurrentTreeListed(st)
    ensures CurrentTreeListed(WithTreeAdded(st, t))
    ensures CurrentTreeListed(WithTreeUpdated(st, id, u))
    ensures CurrentTreeListed(WithTreeRemoved(st, id))
  {
    if st.currentTree.Some? {
      var c := st.currentTree.value;
      var i :| 0 <= i < |st.trees| && st.trees[i] == c;
      assert WithTreeUpdated(st, id, u).trees[i] == WithTreeUpdated(st, id, u).currentTree.value;
      RemoveTreeKeepsOthers(st, id);
    }
  }

  /** The mutable store; each method is one action of the store. */
  class Store {
    var user: Option<User>
    var trees: seq<Tree>
    var currentTree: Option<Tree>
    var permissions: seq<Permission>
    var isLoading: bool
    var error: Option<string>

    function State(): UserState
      reads this
    {
      UserState(user, trees, currentTree, permissions, isLoading, error)
    }

    constructor ()
      ensures State() == InitialState()
    {
      user, trees, currentTree, permissions, isLoading, error := None, [], None, [], false, None;
    }

    method AddTree(t: Tree)
      modifies this
      ensures State() == WithTreeAdded(old(State()), t)
    {
      trees := [t] + trees;
    }

    method UpdateTree(id: Id, u: TreeUpdate)
      modifies this
      ensures State() == WithTreeUpdated(old(State()), id, u)
    {
      var wasCurrent := currentTree.Some? && currentTree.value.id == id;
      trees := MapWhere(trees, SameTree(id), Overlay(u));
      if wasCurrent {
        currentTree := Some(OverlayTree(currentTree.value, u));
      }
    }

    method RemoveTree(id: Id)
      modifies this
      ensures State() == WithTreeRemoved(old(State()), id)
    {
      var wasCurrent := currentTree.Some? && currentTree.value.id == id;
      trees := Filter(trees, OtherTree(id));
      if wasCurrent {
        currentTree := None;
      }
    }

    method Reset()
      modifies this
      ensures State() == InitialState()
    {
      user, trees, currentTree, permissions, isLoading, error := None, [], None, [], false, None;
    }
  }
}
