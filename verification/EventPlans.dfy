/** What the dispatched payload of each directory event amounts to after the two
    normalizations it goes through: the tuples it writes or the filters it
    deletes by. */
module EventPlans {
  import opened Text
  import opened Sequences
  import opened Relationships
  import opened Projection
  import opened Directory

  /** Dispatch normalizes a payload before storing it; applying it normalizes again. */
  ghost function EventPlan(e: Event, captured: seq<Relationship>): Plan {
    ApplyPlan(Normalize(PayloadOf(e, captured)))
  }

  ghost function UndoPlan(e: Event, captured: seq<Relationship>): Plan {
    CompensatePlan(Normalize(PayloadOf(e, captured)))
  }

  predicate IsWrite(e: Event) {
    e.OrganizationCreated? || e.GroupCreated? || e.GroupAttached? || e.MemberAssigned? || e.Reconciled?
  }

  function Written(e: Event): seq<Relationship>
    requires IsWrite(e)
  {
    PayloadOf(e, []).relationships
  }

  function DeletedBy(e: Event): seq<Filter>
    requires !IsWrite(e)
  {
    PayloadOf(e, []).filters
  }

  // ---------- ids without the separator ----------

  predicate CleanID(s: string) {
    '#' !in s
  }

  predicate CleanGroup(g: Group) {
    && CleanID(g.orgID) && CleanID(g.id) && CleanID(g.name) && CleanID(g.parentID)
    && forall u :: u in g.users ==> CleanID(u)
  }

  predicate CleanUser(u: User) {
    CleanID(u.id) && forall g :: g in u.groups ==> CleanID(g)
  }

  /** No id of the event contains '#', which the tuple store does not accept in an id. */
  predicate CleanEvent(e: Event) {
    match e
    case OrganizationCreated(orgID) => CleanID(orgID)
    case GroupCreated(group, request, creator) =>
      CleanGroup(group) && CleanGroup(request) && (creator.Some? ==> CleanID(creator.value.subjectID))
    case GroupDetached(oldGroup, request) => CleanGroup(oldGroup) && CleanGroup(request)
    case GroupAttached(group, request) => CleanGroup(group) && CleanGroup(request)
    case GroupDeleted(orgID, groupID) => CleanID(groupID)
    case MemberAssigned(orgID, groupID, userID) => CleanID(orgID) && CleanID(groupID) && CleanID(userID)
    case MemberRemoved(orgID, groupID, userID, _) => CleanID(orgID) && CleanID(groupID) && CleanID(userID)
    case UserPurged(userID) => CleanID(userID)
    case OrganizationDeleted(orgID, groups) => CleanID(orgID) && forall g :: g in groups ==> CleanGroup(g)
    case Reconciled(orgID, groups, users) =>
      CleanID(orgID) && (forall g :: g in groups ==> CleanGroup(g)) && (forall u :: u in users ==> CleanUser(u))
  }

  lemma EdgesSeparable(a: string, b: string)
    requires CleanID(a) && CleanID(b)
    ensures Separable(ZoneEdge(a, b)) && Separable(ParentEdge(a, b)) && Separable(ChildEdge(a, b))
    ensures Separable(UserEdge(a, b)) && Separable(ZoneMemberEdge(a, b)) && Separable(PlatformEdge(a))
  {
  }

  ghost predicate AllSeparable(rels: seq<Relationship>) {
    forall r :: r in rels ==> Separable(r)
  }

  lemma GroupMemberSeparable(groupID: string, userID: string)
    requires CleanID(groupID) && CleanID(userID)
    ensures Separable(GroupMember(groupID, userID)) && Separable(ZoneMember(groupID, userID))
  {
    EdgesSeparable(Trim(groupID), Trim(userID));
  }

  lemma TopologyEdgesSeparable(orgID: string, groupID: string, parentID: string)
    requires CleanID(orgID) && CleanID(groupID) && CleanID(parentID)
    ensures AllSeparable(TopologyEdges(orgID, groupID, parentID))
  {
    hide Separable, ZoneEdge, ParentEdge, ChildEdge;
    EdgesSeparable(groupID, orgID);
    EdgesSeparable(groupID, parentID);
    EdgesSeparable(parentID, groupID);
  }

  lemma TopologySeparable(primary: Group, fallback: Group)
    requires CleanGroup(primary) && CleanGroup(fallback)
    ensures AllSeparable(Topology(primary, fallback))
  {
    hide AllSeparable, TopologyEdges, FirstNonEmpty, Trim;
    var orgID := FirstNonEmpty(primary.orgID, fallback.orgID);
    var groupID := QualifiedGroupID(orgID, FirstNonEmpty(primary.id, fallback.id));
    var parentID := QualifiedGroupID(orgID, FirstNonEmpty(primary.parentID, fallback.parentID));
    TopologyEdgesSeparable(orgID, groupID, parentID);
  }

  lemma {:induction false} MembershipsSeparable(groups: seq<string>, orgID: string, userID: string)
    requires CleanID(userID) && forall g :: g in groups ==> CleanID(g)
    ensures AllSeparable(MembershipsOf(groups, orgID, userID))
  {
    hide Separable, GroupMember, Trim;
    if groups != [] {
      assert CleanID(groups[|groups| - 1]);
      MembershipsSeparable(groups[..|groups| - 1], orgID, userID);
      GroupMemberSeparable(QualifiedGroupID(orgID, groups[|groups| - 1]), userID);
    }
  }

  lemma {:induction false} MembersSeparable(group: Group, orgID: string, users: seq<string>)
    requires CleanID(group.id) && forall u :: u in users ==> CleanID(u)
    ensures AllSeparable(MembersOf(group, orgID, users))
  {
    hide Separable, GroupMember, Trim, FirstNonEmpty;
    if users != [] {
      MembersSeparable(group, orgID, users[..|users| - 1]);
      GroupMemberSeparable(QualifiedGroupID(FirstNonEmpty(group.orgID, orgID), group.id), users[|users| - 1]);
    }
  }

  lemma {:induction false} UsersSeparable(orgID: string, users: seq<User>)
    requires CleanID(orgID) && forall u :: u in users ==> CleanUser(u)
    ensures AllSeparable(UsersProjection(orgID, users))
  {
    if users != [] {
      var user := users[|users| - 1];
      assert CleanUser(user);
      UsersSeparable(orgID, users[..|users| - 1]);
      MembershipsSeparable(user.groups, orgID, user.id);
      EdgesSeparable(orgID, Trim(user.id));
    }
  }

  lemma {:induction false} GroupsSeparable(orgID: string, groups: seq<Group>)
    requires CleanID(orgID) && forall g :: g in groups ==> CleanGroup(g)
    ensures AllSeparable(GroupsProjection(orgID, groups))
  {
    hide Topology;
    if groups != [] {
      var group := groups[|groups| - 1];
      assert CleanGroup(group);
      GroupsSeparable(orgID, groups[..|groups| - 1]);
      TopologySeparable(group, EMPTY_GROUP.(orgID := orgID));
      MembersSeparable(group, orgID, group.users);
    }
  }

  lemma OwnerSeparable(groupID: string, creator: Option<Principal>)
    requires CleanID(groupID) && (creator.Some? ==> CleanID(creator.value.subjectID))
    ensures OwnerOf(creator).Some? ==> Separable(OwnerEdge(groupID, OwnerOf(creator).value))
  {
    if OwnerOf(creator).Some? {
      var typ := OwnerOf(creator).value.typ;
      assert typ == "service" || typ == "service_account" || typ == "user";
      assert ':' !in typ;
    }
  }

  lemma CreationSeparable(group: Group, request: Group, creator: Option<Principal>)
    requires CleanEvent(GroupCreated(group, request, creator))
    ensures AllSeparable(Creation(group, request, creator))
  {
    hide Topology, Separable, OwnerOf, OwnerEdge, FirstNonEmpty, Trim;
    TopologySeparable(group, request);
    OwnerSeparable(QualifiedGroupID(group.orgID, FirstNonEmpty(group.id, request.id)), creator);
  }

  lemma AssignmentSeparable(orgID: string, groupID: string, userID: string)
    requires CleanID(orgID) && CleanID(groupID) && CleanID(userID)
    ensures AllSeparable(Assignment(orgID, groupID, userID))
  {
    hide GroupMember, ZoneMember, Separable, Trim;
    GroupMemberSeparable(QualifiedGroupID(orgID, groupID), userID);
    GroupMemberSeparable(orgID, userID);
  }

  lemma ProjectedSeparable(orgID: string, groups: seq<Group>, users: seq<User>)
    requires CleanEvent(Reconciled(orgID, groups, users))
    ensures AllSeparable(Projected(Trim(orgID), groups, users))
  {
    hide Separable, UsersProjection, GroupsProjection, PlatformEdge, Trim;
    EdgesSeparable(Trim(Trim(orgID)), "");
    UsersSeparable(Trim(orgID), users);
    GroupsSeparable(Trim(orgID), groups);
  }

  lemma WrittenSeparable(e: Event)
    requires IsWrite(e) && CleanEvent(e)
    ensures AllSeparable(Written(e))
  {
    hide Topology, Separable, Creation, Assignment, Projected, PlatformEdge, Trim;
    match e
    case OrganizationCreated(orgID) => EdgesSeparable(Trim(orgID), "");
    case GroupCreated(group, request, creator) => CreationSeparable(group, request, creator);
    case GroupAttached(group, request) => TopologySeparable(group, request);
    case MemberAssigned(orgID, groupID, userID) => AssignmentSeparable(orgID, groupID, userID);
    case Reconciled(orgID, groups, users) => ProjectedSeparable(orgID, groups, users);
  }

  // ---------- the plans ----------

  lemma WriteEventPlan(e: Event)
    requires IsWrite(e) && CleanEvent(e)
    ensures EventPlan(e, []).Add? && Elements(EventPlan(e, []).rels) == CleanedSet(Written(e))
    ensures UndoPlan(e, []) == Remove(Namings(EventPlan(e, []).rels))
  {
    hide PayloadOf, CleanedSet, Separable, Normalize, Written, Namings, Elements;
    var p := PayloadOf(e, []);
    WriteShape(e);
    WrittenSeparable(e);
    WriteOperation(p);
    NormalizeKeeps(OP_WRITE, p.relationships, []);
    NormalizeIdempotent(p);
  }

  lemma WriteOperation(p: Payload)
    requires p.operation == OP_WRITE
    ensures Normalize(p).operation == OP_WRITE
  {
    OperationsDiffer();
  }

  lemma WriteShape(e: Event)
    requires IsWrite(e)
    ensures PayloadOf(e, []) == Payload(OP_WRITE, Written(e), [])
  {
  }

  ghost predicate PlainFilter(f: Filter) {
    (f.subjectType != "" || f.resourceType != "") && Trimmed(f.resourceID) && Trimmed(f.subjectID)
  }

  lemma DeleteShape(e: Event, captured: seq<Relationship>)
    requires !IsWrite(e)
    ensures PayloadOf(e, captured).operation == OP_DELETE
    ensures PayloadOf(e, captured).filters == DeletedBy(e)
  {
  }

  lemma GroupFiltersPlain(orgID: string, groupID: string)
    ensures forall f :: f in GroupFilters(orgID, groupID) ==> PlainFilter(f)
  {
    hide Trim;
  }

  lemma {:induction false} GroupsFiltersPlain(orgID: string, groups: seq<Group>)
    ensures forall f :: f in GroupsFilters(orgID, groups) ==> PlainFilter(f)
  {
    hide GroupFilters, PlainFilter;
    if groups != [] {
      var g := groups[|groups| - 1];
      GroupsFiltersPlain(orgID, groups[..|groups| - 1]);
      GroupFiltersPlain(orgID, FirstNonEmpty(g.id, g.name));
    }
  }

  lemma UserFiltersPlain(userID: string)
    ensures forall f :: f in UserFilters(userID) ==> PlainFilter(f)
  {
    hide Trim;
    assert forall i :: 0 <= i < |USER_RESOURCE_TYPES| ==> USER_RESOURCE_TYPES[i] != "";
  }

  lemma DetachFiltersPlain(oldGroup: Group, request: Group)
    ensures forall f :: f in TopologyFilters(oldGroup, request) ==> PlainFilter(f)
  {
    hide Trim;
  }

  lemma RemovalFiltersPlain(orgID: string, groupID: string, userID: string, last: bool)
    ensures forall f :: f in Removal(orgID, groupID, userID, last).filters ==> PlainFilter(f)
  {
    hide Trim;
  }

  lemma DeletedByPlain(e: Event)
    requires !IsWrite(e)
    ensures forall f :: f in DeletedBy(e) ==> PlainFilter(f)
  {
    hide PlainFilter, TopologyFilters, GroupFilters, GroupsFilters, Removal, UserFilters;
    match e
    case GroupDetached(oldGroup, request) => DetachFiltersPlain(oldGroup, request);
    case GroupDeleted(orgID, groupID) => GroupFiltersPlain(orgID, groupID);
    case MemberRemoved(orgID, groupID, userID, last) => RemovalFiltersPlain(orgID, groupID, userID, last);
    case UserPurged(userID) => UserFiltersPlain(userID);
    case OrganizationDeleted(orgID, groups) =>
      GroupsFiltersPlain(Trim(orgID), groups);
      ZoneFilterPlain(orgID);
  }

  lemma ZoneFilterPlain(orgID: string)
    ensures PlainFilter(ZoneFilter(Trim(orgID)))
  {
  }

  /** The filters reach the store exactly as they were built. */
  lemma DeleteEventPlan(e: Event, captured: seq<Relationship>)
    requires !IsWrite(e)
    ensures EventPlan(e, captured) == Remove(DeletedBy(e))
  {
    hide PayloadOf;
    var p := PayloadOf(e, captured);
    DeleteShape(e, captured);
    DeletedByPlain(e);
    assert forall f :: f in p.filters ==> !NoField(f) && CleanFilter(f) == f;
    CollectStable(p.filters, NoField, CleanFilter);
    OperationsDiffer();
  }

  lemma OperationsDiffer()
    ensures OP_WRITE != OP_DELETE && CleanOperation(OP_WRITE) == OP_WRITE && CleanOperation(OP_DELETE) == OP_DELETE
  {
    assert |OP_WRITE| != |OP_DELETE|;
    assert !IsSpace(OP_WRITE[0]) && !IsSpace(OP_WRITE[4]) && !IsSpace(OP_DELETE[0]) && !IsSpace(OP_DELETE[5]);
    assert Trimmed(OP_WRITE) && Trimmed(OP_DELETE);
  }
}
