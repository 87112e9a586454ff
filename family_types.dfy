/**
 * The records the family-tree application passes around: trees, members,
 * relationships, derived relationships, users and permissions, and the
 * partial updates that are spread over them.
 */
module FamilyTypes {
  import opened Wrappers

  /** Database identifiers (UUID strings). */
  type Id = string

  /** The kind of a stored relationship: `parent(a, b)` means a is a parent of b. */
  datatype RelKind = Parent | Spouse | Sibling

  datatype Gender = Male | Female | Other | PreferNotToSay

  datatype Tree = Tree(id: Id, name: string, adminUser: Id, createdAt: string)

  /**
   * A member row. `positionX`/`positionY` are the saved canvas
   * coordinates; they are stored rounded to whole numbers.
   */
  datatype Member = Member(
    id: Id,
    treeId: Id,
    name: string,
    birthdate: Option<string>,
    photoPath: Option<string>,
    summary: Option<string>,
    location: Option<string>,
    gender: Option<Gender>,
    positionX: Option<int>,
    positionY: Option<int>,
    createdAt: string)

  datatype Relationship = Relationship(id: Id, treeId: Id, aId: Id, bId: Id, kind: RelKind, createdAt: string)

  /** The tree store's relationships are typed `'parent' | 'spouse'`. */
  type StoreRelationship = r: Relationship | r.kind != Sibling
    witness Relationship("", "", "", "", Parent, "")

  /** A named relationship between two members; nothing in the application computes one. */
  datatype DerivedRelationship = DerivedRelationship(from: Id, to: Id, kind: string, isInLaw: bool, distance: Option<real>)

  datatype User = User(id: Id, email: string, name: Option<string>, avatarUrl: Option<string>)

  datatype Role = Admin | Editor | Viewer

  datatype Permission = Permission(treeId: Id, userId: Id, role: Role)

  /**
   * `Partial<Member>`: each field is either absent (`None`) or present
   * with its new value; for an optional field the new value may itself be
   * absent, which clears the field.
   */
  datatype MemberUpdate = MemberUpdate(
    id: Option<Id>,
    treeId: Option<Id>,
    name: Option<string>,
    birthdate: Option<Option<string>>,
    photoPath: Option<Option<string>>,
    summary: Option<Option<string>>,
    location: Option<Option<string>>,
    gender: Option<Option<Gender>>,
    positionX: Option<Option<int>>,
    positionY: Option<Option<int>>,
    createdAt: Option<string>)

  datatype TreeUpdate = TreeUpdate(id: Option<Id>, name: Option<string>, adminUser: Option<Id>, createdAt: Option<string>)

  /** The update spread over the member: the present fields of `u` win, every other field is `m`'s. */
  function OverlayMember(m: Member, u: MemberUpdate): Member {
    Member(
      u.id.GetOr(m.id),
      u.treeId.GetOr(m.treeId),
      u.name.GetOr(m.name),
      u.birthdate.GetOr(m.birthdate),
      u.photoPath.GetOr(m.photoPath),
      u.summary.GetOr(m.summary),
      u.location.GetOr(m.location),
      u.gender.GetOr(m.gender),
      u.positionX.GetOr(m.positionX),
      u.positionY.GetOr(m.positionY),
      u.createdAt.GetOr(m.createdAt))
  }

  /** The update spread over the tree, field by field as for members. */
  function OverlayTree(t: Tree, u: TreeUpdate): Tree {
    Tree(u.id.GetOr(t.id), u.name.GetOr(t.name), u.adminUser.GetOr(t.adminUser), u.createdAt.GetOr(t.createdAt))
  }

  /** Overlaying the same update twice is the same as overlaying it once. */
  lemma OverlayMemberIdempotent(m: Member, u: MemberUpdate)
    ensures OverlayMember(OverlayMember(m, u), u) == OverlayMember(m, u)
  {
  }

  lemma OverlayTreeIdempotent(t: Tree, u: TreeUpdate)
    ensures OverlayTree(OverlayTree(t, u), u) == OverlayTree(t, u)
  {
  }
}
