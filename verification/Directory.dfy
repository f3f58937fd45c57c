/** The directory's groups and users, and the tuples and delete filters that
    each directory operation projects. */
module Directory {
  import opened Text
  import opened Relationships
  import opened Projection

  datatype Group = Group(orgID: string, id: string, name: string, parentID: string, users: seq<string>)
  datatype User = User(id: string, groups: seq<string>)

  const EMPTY_GROUP := Group("", "", "", "", [])
  const DEFAULT_PLATFORM_ID := "global"

  // ---------- the edges of the projection ----------

  function ZoneEdge(group: string, org: string): Relationship {
    Relationship(ObjectRef("group", group), "zone", SubjectRef("zone", org, ""))
  }

  function ParentEdge(group: string, parent: string): Relationship {
    Relationship(ObjectRef("group", group), "parent", SubjectRef("group", parent, ""))
  }

  /** The members of the child group are members of the parent group. */
  function ChildEdge(parent: string, group: string): Relationship {
    Relationship(ObjectRef("group", parent), "member", SubjectRef("group", group, "member"))
  }

  function UserEdge(group: string, user: string): Relationship {
    Relationship(ObjectRef("group", group), "member", SubjectRef("user", user, ""))
  }

  function ZoneMemberEdge(org: string, user: string): Relationship {
    Relationship(ObjectRef("zone", org), "member", SubjectRef("user", user, ""))
  }

  function PlatformEdge(org: string): Relationship {
    Relationship(ObjectRef("zone", org), "platform", SubjectRef("platform", DEFAULT_PLATFORM_ID, ""))
  }

  function OwnerEdge(group: string, owner: SubjectRef): Relationship {
    Relationship(ObjectRef("group", group), "owner", owner)
  }

  // ---------- tuple builders ----------

  function PlatformZone(orgID: string): Relationship {
    PlatformEdge(Trim(orgID))
  }

  function GroupMember(groupID: string, userID: string): Relationship {
    UserEdge(Trim(groupID), Trim(userID))
  }

  function ZoneMember(orgID: string, userID: string): Relationship {
    ZoneMemberEdge(Trim(orgID), Trim(userID))
  }

  /** qualifiedGroupID */
  function QualifiedGroupID(orgID: string, groupID: string): string {
    Trim(groupID)
  }

  function Topology(primary: Group, fallback: Group): seq<Relationship> {
    var orgID := FirstNonEmpty(primary.orgID, fallback.orgID);
    var groupID := QualifiedGroupID(orgID, FirstNonEmpty(primary.id, fallback.id));
    var parentID := QualifiedGroupID(orgID, FirstNonEmpty(primary.parentID, fallback.parentID));
    TopologyEdges(orgID, groupID, parentID)
  }

  function TopologyEdges(orgID: string, groupID: string, parentID: string): seq<Relationship> {
    if groupID == "" then []
    else
      (if orgID != "" then [ZoneEdge(groupID, orgID)] else []) +
      (if parentID != "" && parentID != groupID && parentID != orgID
       then [ParentEdge(groupID, parentID), ChildEdge(parentID, groupID)] else [])
  }

  datatype Principal = Principal(authenticated: bool, subjectType: string, subjectID: string)

  /** groupOwnerFromPrincipal */
  function OwnerOf(principal: Option<Principal>): Option<SubjectRef> {
    match principal
    case None => None
    case Some(p) =>
      if !p.authenticated || p.subjectID == "" then None
      else
        var typ := if p.subjectType == "service" || p.subjectType == "service_account" then p.subjectType else "user";
        Some(SubjectRef(typ, p.subjectID, ""))
  }

  // ---------- delete filters ----------

  function TopologyFilters(oldGroup: Group, fallback: Group): seq<Filter> {
    var orgID := FirstNonEmpty(oldGroup.orgID, fallback.orgID);
    var groupID := QualifiedGroupID(orgID, FirstNonEmpty(oldGroup.id, fallback.id));
    if groupID == "" then []
    else [Filter("group", groupID, "zone", "", "", ""),
          Filter("group", groupID, "parent", "", "", ""),
          Filter("group", "", "member", "group", groupID, "member")]
  }

  function GroupFilters(orgID: string, groupID: string): seq<Filter> {
    var gid := QualifiedGroupID(orgID, groupID);
    if gid == "" then []
    else [Filter("group", gid, "", "", "", ""),
          Filter("", "", "", "group", gid, ""),
          Filter("", "", "", "group", gid, "member")]
  }

  /** The resource types whose schema permits a user subject. */
  const USER_RESOURCE_TYPES: seq<string> := [
    "platform", "zone", "group", "iam_authz", "iam", "project", "skill_space", "skill",
    "agent_space", "agent", "tool_space", "tool", "sandbox_space", "sandbox",
    "runtime_environment", "deployment", "role_binding"]

  function UserFilters(userID: string): seq<Filter> {
    var uid := Trim(userID);
    if uid == "" then []
    else seq(|USER_RESOURCE_TYPES|, i requires 0 <= i < |USER_RESOURCE_TYPES| =>
             Filter(USER_RESOURCE_TYPES[i], "", "", "user", uid, ""))
  }

  function ZoneFilter(orgID: string): Filter {
    Filter("zone", orgID, "", "", "", "")
  }

  function MemberFilter(groupID: string, userID: string): Filter {
    Filter("group", groupID, "member", "user", userID, "")
  }

  function ZoneMemberFilter(orgID: string, userID: string): Filter {
    Filter("zone", orgID, "member", "user", userID, "")
  }

  function GroupsFilters(orgID: string, groups: seq<Group>): seq<Filter> {
    if groups == [] then []
    else GroupsFilters(orgID, groups[..|groups| - 1])
         + GroupFilters(orgID, FirstNonEmpty(groups[|groups| - 1].id, groups[|groups| - 1].name))
  }

  // ---------- the payload of each operation ----------

  datatype Event =
    | OrganizationCreated(orgID: string)
    | GroupCreated(group: Group, request: Group, creator: Option<Principal>)
    | GroupDetached(oldGroup: Group, request: Group)    // first half of an update
    | GroupAttached(group: Group, request: Group)       // second half of an update
    | GroupDeleted(orgID: string, groupID: string)
    | MemberAssigned(orgID: string, groupID: string, userID: string)
    | MemberRemoved(orgID: string, groupID: string, userID: string, last: bool)
    | UserPurged(userID: string)                        // deleted or disabled
    | OrganizationDeleted(orgID: string, groups: seq<Group>)
    | Reconciled(orgID: string, groups: seq<Group>, users: seq<User>)

  function Creation(group: Group, request: Group, creator: Option<Principal>): seq<Relationship> {
    var owner := OwnerOf(creator);
    var groupID := QualifiedGroupID(group.orgID, FirstNonEmpty(group.id, request.id));
    Topology(group, request) +
    (if owner.Some? && groupID != "" then [OwnerEdge(groupID, owner.value)] else [])
  }

  function Assignment(orgID: string, groupID: string, userID: string): seq<Relationship> {
    [GroupMember(QualifiedGroupID(orgID, groupID), userID)] +
    (if !Blank(orgID) then [ZoneMember(orgID, userID)] else [])
  }

  function Removal(orgID: string, groupID: string, userID: string, last: bool): Payload {
    var gid, uid, org := QualifiedGroupID(orgID, groupID), Trim(userID), Trim(orgID);
    if gid == "" || uid == "" then Payload(OP_DELETE, [], [])
    else
      Payload(OP_DELETE,
              [GroupMember(gid, uid)] + (if last then [ZoneMember(org, uid)] else []),
              [MemberFilter(gid, uid)] + (if last then [ZoneMemberFilter(org, uid)] else []))
  }

  function OrganizationFilters(orgID: string, groups: seq<Group>): seq<Filter> {
    if Blank(orgID) then [] else [ZoneFilter(Trim(orgID))] + GroupsFilters(Trim(orgID), groups)
  }

  // ---------- BuildDirectoryProjectionRelationships ----------

  function MembershipsOf(groups: seq<string>, orgID: string, userID: string): seq<Relationship> {
    if groups == [] then []
    else MembershipsOf(groups[..|groups| - 1], orgID, userID)
         + [GroupMember(QualifiedGroupID(orgID, groups[|groups| - 1]), userID)]
  }

  function UserProjection(orgID: string, user: User): seq<Relationship> {
    if Blank(user.id) then []
    else [ZoneMemberEdge(orgID, Trim(user.id))] + MembershipsOf(user.groups, orgID, user.id)
  }

  function UsersProjection(orgID: string, users: seq<User>): seq<Relationship> {
    if users == [] then []
    else UsersProjection(orgID, users[..|users| - 1]) + UserProjection(orgID, users[|users| - 1])
  }

  function MembersOf(group: Group, orgID: string, users: seq<string>): seq<Relationship> {
    if users == [] then []
    else MembersOf(group, orgID, users[..|users| - 1])
         + [GroupMember(QualifiedGroupID(FirstNonEmpty(group.orgID, orgID), group.id), users[|users| - 1])]
  }

  function GroupsProjection(orgID: string, groups: seq<Group>): seq<Relationship> {
    if groups == [] then []
    else
      var group := groups[|groups| - 1];
      GroupsProjection(orgID, groups[..|groups| - 1]) +
      Topology(group, EMPTY_GROUP.(orgID := orgID)) + MembersOf(group, orgID, group.users)
  }

  function Projected(orgID: string, groups: seq<Group>, users: seq<User>): seq<Relationship> {
    [PlatformZone(orgID)] + UsersProjection(orgID, users) + GroupsProjection(orgID, groups)
  }

  method ProjectUser(orgID: string, user: User) returns (rels: seq<Relationship>)
    ensures rels == UserProjection(orgID, user)
  {
    hide GroupMember, ZoneMemberEdge, QualifiedGroupID;
    if Blank(user.id) { return []; }
    var members := [];
    for j := 0 to |user.groups|
      invariant members == MembershipsOf(user.groups[..j], orgID, user.id)
    {
      assert user.groups[..j + 1][..j] == user.groups[..j];
      members := members + [GroupMember(QualifiedGroupID(orgID, user.groups[j]), user.id)];
    }
    assert user.groups[..|user.groups|] == user.groups;
    rels := [ZoneMemberEdge(orgID, Trim(user.id))] + members;
  }

  method ProjectUsers(orgID: string, users: seq<User>) returns (rels: seq<Relationship>)
    ensures rels == UsersProjection(orgID, users)
  {
    hide UserProjection;
    rels := [];
    for i := 0 to |users|
      invariant rels == UsersProjection(orgID, users[..i])
    {
      assert users[..i + 1][..i] == users[..i];
      var own := ProjectUser(orgID, users[i]);
      rels := rels + own;
    }
    assert users[..|users|] == users;
  }

  method ProjectGroups(orgID: string, groups: seq<Group>) returns (rels: seq<Relationship>)
    ensures rels == GroupsProjection(orgID, groups)
  {
    hide GroupMember, Topology, QualifiedGroupID;
    rels := [];
    for i := 0 to |groups|
      invariant rels == GroupsProjection(orgID, groups[..i])
    {
      var group := groups[i];
      assert groups[..i + 1][..i] == groups[..i];
      rels := rels + Topology(group, EMPTY_GROUP.(orgID := orgID));
      var members := [];
      for j := 0 to |group.users|
        invariant members == MembersOf(group, orgID, group.users[..j])
      {
        assert group.users[..j + 1][..j] == group.users[..j];
        members := members + [GroupMember(QualifiedGroupID(FirstNonEmpty(group.orgID, orgID), group.id),
            group.users[j])];
      }
      assert group.users[..|group.users|] == group.users;
      rels := rels + members;
    }
    assert groups[..|groups|] == groups;
  }

  /** The desired tuples of an organization, from what the directory lists. */
  method BuildDirectoryProjectionRelationships(org: string, groups: seq<Group>, users: seq<User>)
    returns (out: seq<Relationship>)
    ensures out == if Blank(org) then [] else Dedupe(Projected(Trim(org), groups, users))
  {
    var orgID := Trim(org);
    if orgID == "" { return []; }
    var ofUsers := ProjectUsers(orgID, users);
    var ofGroups := ProjectGroups(orgID, groups);
    out := DedupeRelationships([PlatformZone(orgID)] + ofUsers + ofGroups);
  }

  /** What each operation dispatches. `captured` is the compensation data read
      before a delete. */
  function PayloadOf(e: Event, captured: seq<Relationship>): Payload {
    match e
    case OrganizationCreated(orgID) => Payload(OP_WRITE, [PlatformZone(orgID)], [])
    case GroupCreated(group, request, creator) => Payload(OP_WRITE, Creation(group, request, creator), [])
    case GroupDetached(oldGroup, request) => Payload(OP_DELETE, [], TopologyFilters(oldGroup, request))
    case GroupAttached(group, request) => Payload(OP_WRITE, Topology(group, request), [])
    case GroupDeleted(orgID, groupID) => Payload(OP_DELETE, captured, GroupFilters(orgID, groupID))
    case MemberAssigned(orgID, groupID, userID) => Payload(OP_WRITE, Assignment(orgID, groupID, userID), [])
    case MemberRemoved(orgID, groupID, userID, last) => Removal(orgID, groupID, userID, last)
    case UserPurged(userID) => Payload(OP_DELETE, captured, UserFilters(userID))
    case OrganizationDeleted(orgID, groups) => Payload(OP_DELETE, captured, OrganizationFilters(orgID, groups))
    case Reconciled(orgID, groups, users) =>
      Payload(OP_WRITE, if Blank(orgID) then [] else Projected(Trim(orgID), groups, users), [])
  }
}
