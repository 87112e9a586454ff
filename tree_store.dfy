/**
 * The in-memory tree store: the members, relationships and derived
 * relationships of the tree being edited, with view state (selection,
 * search, zoom, pan) and loading/error flags. Every action replaces some
 * fields with a new value computed by `filter`, `map` or spread; the
 * class below does the replacing, the functions say what the new value is.
 */
module TreeStore {
  import opened Wrappers
  import opened FamilyTypes
  import opened Lists

  datatype Pan = Pan(x: real, y: real)

  /** The store's state, field for field. */
  datatype TreeState = TreeState(
    currentTree: Option<Tree>,
    members: seq<Member>,
    relationships: seq<StoreRelationship>,
    derivedRelationships: seq<DerivedRelationship>,
    selectedMember: Option<Member>,
    searchQuery: string,
    zoom: real,
    pan: Pan,
    isLoading: bool,
    error: Option<string>)

  /** The state the store is created with and `reset` returns to. */
  function InitialState(): TreeState {
    TreeState(None, [], [], [], None, "", 1.0, Pan(0.0, 0.0), false, None)
  }

  /** The filter tests the actions use. */
  function OtherMember(id: Id): Member -> bool {
    (m: Member) => m.id != id
  }

  function NotTouching(id: Id): StoreRelationship -> bool {
    (rel: StoreRelationship) => rel.aId != id && rel.bId != id
  }

  function DerivedNotTouching(id: Id): DerivedRelationship -> bool {
    (d: DerivedRelationship) => d.from != id && d.to != id
  }

  function OtherRelationship(id: Id): StoreRelationship -> bool {
    (rel: StoreRelationship) => rel.id != id
  }

  function SameMember(id: Id): Member -> bool {
    (m: Member) => m.id == id
  }

  function Overlay(u: MemberUpdate): Member -> Member {
    (m: Member) => OverlayMember(m, u)
  }

  /** `addMember`: the member is appended; the earlier members are unchanged and in order. */
  function WithMemberAdded(st: TreeState, m: Member): (r: TreeState)
    ensures |r.members| == |st.members| + 1 && r.members[|st.members|] == m
    ensures r.members[..|st.members|] == st.members
    ensures r == st.(members := r.members)
  {
    st.(members := st.members + [m])
  }

  /**
   * `updateMember`: same length and order; members with the given id get
   * the update overlaid, every other member is unchanged.
   */
  function WithMemberUpdated(st: TreeState, id: Id, u: MemberUpdate): (r: TreeState)
    ensures |r.members| == |st.members|
    ensures forall i :: 0 <= i < |st.members| && st.members[i].id != id ==> r.members[i] == st.members[i]
    ensures forall i :: 0 <= i < |st.members| && st.members[i].id == id ==> r.members[i] == OverlayMember(st.members[i], u)
    ensures r == st.(members := r.members)
  {
    st.(members := MapWhere(st.members, SameMember(id), Overlay(u)))
  }

  /**
   * `removeMember`: the member is gone, and so is every relationship and
   * derived relationship that names it; nothing else changes.
   */
  function WithMemberRemoved(st: TreeState, id: Id): (r: TreeState)
    ensures forall m :: m in r.members ==> m.id != id
    ensures forall rel :: rel in r.relationships ==> rel.aId != id && rel.bId != id
    ensures forall d :: d in r.derivedRelationships ==> d.from != id && d.to != id
    ensures r == st.(members := r.members, relationships := r.relationships,
                     derivedRelationships := r.derivedRelationships)
  {
    st.(members := Filter(st.members, OtherMember(id)),
        relationships := Filter(st.relationships, NotTouching(id)),
        derivedRelationships := Filter(st.derivedRelationships, DerivedNotTouching(id)))
  }

  /** `addRelationship`: appended with no check at all. */
  function WithRelationshipAdded(st: TreeState, rel: StoreRelationship): (r: TreeState)
    ensures |r.relationships| == |st.relationships| + 1 && r.relationships[|st.relationships|] == rel
    ensures r.relationships[..|st.relationships|] == st.relationships
    ensures r == st.(relationships := r.relationships)
  {
    st.(relationships := st.relationships + [rel])
  }

  /** `removeRelationship`: the relationships with that id are gone; members and derived entries are untouched. */
  function WithRelationshipRemoved(st: TreeState, id: Id): (r: TreeState)
    ensures forall rel :: rel in r.relationships ==> rel.id != id
    ensures r == st.(relationships := r.relationships)
  {
    st.(relationships := Filter(st.relationships, OtherRelationship(id)))
  }

  /** Every relationship names two members of the store. */
  ghost predicate RelationshipsResolve(st: TreeState) {
    forall rel :: rel in st.relationships ==> HasMember(st.members, rel.aId) && HasMember(st.members, rel.bId)
  }

  predicate HasMember(members: seq<Member>, id: Id) {
    exists m :: m in members && m.id == id
  }

  /** `removeMember` keeps exactly the entries that do not name the member. */
  lemma RemoveMemberKeepsOthers(st: TreeState, id: Id)
    ensures forall m :: m in WithMemberRemoved(st, id).members <==> m in st.members && m.id != id
    ensures forall rel :: rel in WithMemberRemoved(st, id).relationships <==>
              rel in st.relationships && rel.aId != id && rel.bId != id
    ensures forall d :: d in WithMemberRemoved(st, id).derivedRelationships <==>
              d in st.derivedRelationships && d.from != id && d.to != id
    // the members that stay keep their order: the i-th old member, if it
    // stays, is at the rank it has among the staying ones
    ensures |WithMemberRemoved(st, id).members| == CountWhere(st.members, OtherMember(id))
    ensures forall i :: 0 <= i < |st.members| && st.members[i].id != id ==>
              var k := CountWhere(st.members[..i], OtherMember(id));
              k < |WithMemberRemoved(st, id).members| && WithMemberRemoved(st, id).members[k] == st.members[i]
    // the same for the relationships and the derived relationships that
    // stay, duplicates included
    ensures |WithMemberRemoved(st, id).relationships| == CountWhere(st.relationships, NotTouching(id))
    ensures forall i :: 0 <= i < |st.relationships| && st.relationships[i].aId != id && st.relationships[i].bId != id ==>
              var k := CountWhere(st.relationships[..i], NotTouching(id));
              k < |WithMemberRemoved(st, id).relationships| &&
              WithMemberRemoved(st, id).relationships[k] == st.relationships[i]
    ensures |WithMemberRemoved(st, id).derivedRelationships| == CountWhere(st.derivedRelationships, DerivedNotTouching(id))
    ensures forall i :: 0 <= i < |st.derivedRelationships| &&
                        st.derivedRelationships[i].from != id && st.derivedRelationships[i].to != id ==>
              var k := CountWhere(st.derivedRelationships[..i], DerivedNotTouching(id));
              k < |WithMemberRemoved(st, id).derivedRelationships| &&
              WithMemberRemoved(st, id).derivedRelationships[k] == st.derivedRelationships[i]
  {
    FilterRanks(st.members, OtherMember(id));
    FilterRanks(st.relationships, NotTouching(id));
    FilterRanks(st.derivedRelationships, DerivedNotTouching(id));
    FilterMembership(st.members, OtherMember(id));
    FilterMembership(st.relationships, NotTouching(id));
    FilterMembership(st.derivedRelationships, DerivedNotTouching(id));
  }

  /** Removing a member twice is the same as removing it once. */
  lemma RemoveMemberIdempotent(st: TreeState, id: Id)
    ensures WithMemberRemoved(WithMemberRemoved(st, id), id) == WithMemberRemoved(st, id)
  {
    FilterIdempotent(st.members, OtherMember(id));
    FilterIdempotent(st.relationships, NotTouching(id));
    FilterIdempotent(st.derivedRelationships, DerivedNotTouching(id));
  }

  /** Removing a relationship twice is the same as removing it once. */
  lemma RemoveRelationshipIdempotent(st: TreeState, id: Id)
    ensures WithRelationshipRemoved(WithRelationshipRemoved(st, id), id) == WithRelationshipRemoved(st, id)
  {
    FilterIdempotent(st.relationships, OtherRelationship(id));
  }

  /** `removeRelationship` keeps exactly the relationships with another id. */
  lemma RemoveRelationshipKeepsOthers(st: TreeState, id: Id)
    ensures forall rel :: rel in WithRelationshipRemoved(st, id).relationships <==>
              rel in st.relationships && rel.id != id
    // the relationships that stay keep their order, duplicates included
    ensures |WithRelationshipRemoved(st, id).relationships| == CountWhere(st.relationships, OtherRelationship(id))
    ensures forall i :: 0 <= i < |st.relationships| && st.relationships[i].id != id ==>
              var k := CountWhere(st.relationships[..i], OtherRelationship(id));
              k < |WithRelationshipRemoved(st, id).relationships| &&
              WithRelationshipRemoved(st, id).relationships[k] == st.relationships[i]
  {
    FilterRanks(st.relationships, OtherRelationship(id));
    FilterMembership(st.relationships, OtherRelationship(id));
  }

  /** Applying the same update twice is the same as applying it once, even one that changes the id. */
  lemma UpdateMemberIdempotent(st: TreeState, id: Id, u: MemberUpdate)
    ensures WithMemberUpdated(WithMemberUpdated(st, id, u), id, u) == WithMemberUpdated(st, id, u)
  {
    forall m | m in st.members && SameMember(id)(m) ensures Overlay(u)(Overlay(u)(m)) == Overlay(u)(m) {
      OverlayMemberIdempotent(m, u);
    }
    MapWhereIdempotent(st.members, SameMember(id), Overlay(u));
  }

  /** Adding a member and then removing its id leaves what removing the id alone leaves. */
  lemma AddThenRemoveMember(st: TreeState, m: Member)
    ensures WithMemberRemoved(WithMemberAdded(st, m), m.id) == WithMemberRemoved(st, m.id)
  {
    FilterAppend(st.members, [m], OtherMember(m.id));
  }

  /**
   * Updating a member without touching its id and then removing it leaves
   * what removing it alone leaves: the update is lost with the member.
   */
  lemma UpdateThenRemoveMember(st: TreeState, id: Id, u: MemberUpdate)
    requires u.id == None || u.id == Some(id)
    ensures WithMemberRemoved(WithMemberUpdated(st, id, u), id) == WithMemberRemoved(st, id)
  {
    FilterAfterMapWhere(st.members, SameMember(id), Overlay(u), OtherMember(id));
  }

  /**
   * `removeMember` never leaves a relationship naming a missing member
   * behind: it keeps relationships resolved.
   */
  lemma RemoveMemberKeepsRelationshipsResolved(st: TreeState, id: Id)
    requires RelationshipsResolve(st)
    ensures RelationshipsResolve(WithMemberRemoved(st, id))
  {
    var r := WithMemberRemoved(st, id);
    RemoveMemberKeepsOthers(st, id);
    forall rel | rel in r.relationships
      ensures HasMember(r.members, rel.aId) && HasMember(r.members, rel.bId)
    {
      var ma :| ma in st.members && ma.id == rel.aId;
      var mb :| mb in st.members && mb.id == rel.bId;
      assert ma in r.members && mb in r.members;
    }
  }

  /**
   * `addRelationship` checks nothing: a duplicate or a self-relation is
   * appended like any other, and the relationships stay resolved only if
   * the new one names two existing members.
   */
  lemma AddRelationshipUnchecked(st: TreeState, rel: StoreRelationship)
    ensures multiset(WithRelationshipAdded(st, rel).relationships)[rel] == multiset(st.relationships)[rel] + 1
    ensures RelationshipsResolve(WithRelationshipAdded(st, rel)) <==>
              RelationshipsResolve(st) && HasMember(st.members, rel.aId) && HasMember(st.members, rel.bId)
  {
    var r := WithRelationshipAdded(st, rel);
    assert r.relationships == st.relationships + [rel];
    if RelationshipsResolve(r) {
      assert rel in r.relationships;
      forall x | x in st.relationships
        ensures HasMember(st.members, x.aId) && HasMember(st.members, x.bId)
      {
        assert x in r.relationships;
      }
    }
  }

  /** The mutable store; each method is one action of the store. */
  class Store {
    var currentTree: Option<Tree>
    var members: seq<Member>
    var relationships: seq<StoreRelationship>
    var derivedRelationships: seq<DerivedRelationship>
    var selectedMember: Option<Member>
    var searchQuery: string
    var zoom: real
    var pan: Pan
    var isLoading: bool
    var error: Option<string>

    function State(): TreeState
      reads this
    {
      TreeState(currentTree, members, relationships, derivedRelationships, selectedMember,
                searchQuery, zoom, pan, isLoading, error)
    }

    constructor ()
      ensures State() == InitialState()
    {
      currentTree, members, relationships, derivedRelationships := None, [], [], [];
      selectedMember, searchQuery, zoom, pan := None, "", 1.0, Pan(0.0, 0.0);
      isLoading, error := false, None;
    }

    method AddMember(m: Member)
      modifies this
      ensures State() == WithMemberAdded(old(State()), m)
    {
      members := members + [m];
    }

    method UpdateMember(id: Id, u: MemberUpdate)
      modifies this
      ensures State() == WithMemberUpdated(old(State()), id, u)
    {
      members := MapWhere(members, SameMember(id), Overlay(u));
    }

    method RemoveMember(id: Id)
      modifies this
      ensures State() == WithMemberRemoved(old(State()), id)
    {
      members := Filter(members, OtherMember(id));
      relationships := Filter(relationships, NotTouching(id));
      derivedRelationships := Filter(derivedRelationships, DerivedNotTouching(id));
    }

    method AddRelationship(rel: StoreRelationship)
      modifies this
      ensures State() == WithRelationshipAdded(old(State()), rel)
    {
      relationships := relationships + [rel];
    }

    method RemoveRelationship(id: Id)
      modifies this
      ensures State() == WithRelationshipRemoved(old(State()), id)
    {
      relationships := Filter(relationships, OtherRelationship(id));
    }

    method Reset()
      modifies this
      ensures State() == InitialState()
    {
      currentTree, members, relationships, derivedRelationships := None, [], [], [];
      selectedMember, searchQuery, zoom, pan := None, "", 1.0, Pan(0.0, 0.0);
      isLoading, error := false, None;
    }
  }
}
