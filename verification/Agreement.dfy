/** The tuple store as an index of the directory: after every run of successful
    operations its group tuples are exactly the projection of the directory, and
    members of a zone's groups are members of the zone. */
module Agreement {
  import opened Text
  import opened Relationships
  import opened Projection
  import opened Directory
  import opened EventPlans
  import opened Mirror
  import opened Membership
  import opened Rollback

  /** A group as the identity provider stores it, under its id. */
  datatype Record = Record(org: string, parent: string, members: set<string>)

  type Registry = map<string, Record>

  predicate GoodID(s: string) {
    s != "" && Trimmed(s) && CleanID(s)
  }

  predicate GoodParent(s: string) {
    Trimmed(s) && CleanID(s)
  }

  predicate GoodRecord(rec: Record) {
    GoodID(rec.org) && GoodParent(rec.parent) && forall u :: u in rec.members ==> GoodID(u)
  }

  predicate GoodRegistry(dir: Registry) {
    forall g :: g in dir ==> GoodID(g) && GoodRecord(dir[g])
  }

  function AsGroup(id: string, rec: Record): Group {
    Group(rec.org, id, id, rec.parent, [])
  }

  // ---------- the projection of a directory ----------

  predicate HasParent(id: string, rec: Record) {
    rec.parent != "" && rec.parent != id && rec.parent != rec.org
  }

  predicate TopologyHas(id: string, rec: Record, r: Relationship) {
    || r == ZoneEdge(id, rec.org)
    || (HasParent(id, rec) && (r == ParentEdge(id, rec.parent) || r == ChildEdge(rec.parent, id)))
  }

  predicate MembersHave(id: string, rec: Record, r: Relationship) {
    r == UserEdge(id, r.subject.id) && r.subject.id in rec.members
  }

  predicate Has(id: string, rec: Record, r: Relationship) {
    TopologyHas(id, rec, r) || MembersHave(id, rec, r)
  }

  ghost predicate InProjection(dir: Registry, r: Relationship) {
    exists g :: g in dir && Has(g, dir[g], r)
  }

  /** The relations of a group that the directory determines. */
  predicate IsIndexed(r: Relationship) {
    r.resource.typ == "group" && (r.relation == "zone" || r.relation == "parent" || r.relation == "member")
  }

  ghost predicate Agrees(dir: Registry, s: Store) {
    forall r :: IsIndexed(r) ==> (r in s <==> InProjection(dir, r))
  }

  ghost predicate ZoneMembersHeld(dir: Registry, s: Store) {
    forall g, u :: g in dir && u in dir[g].members ==> ZoneMemberEdge(dir[g].org, u) in s
  }

  // ---------- operations ----------

  datatype Op =
    | CreateGroup(id: string, org: string, parent: string, creator: Option<Principal>)
    | UpdateGroup(org: string, id: string, parent: string)
    | DeleteGroup(org: string, id: string)
    | AssignUser(org: string, id: string, user: string)
    | RemoveUser(org: string, id: string, user: string)
    | DeleteUser(user: string)

  predicate InOrg(dir: Registry, org: string, id: string) {
    id in dir && dir[id].org == org
  }

  /** What the provider accepts: fresh ids for new groups, and existing groups
      addressed through their organization. */
  predicate Accepted(dir: Registry, op: Op) {
    match op
    case CreateGroup(id, org, parent, creator) =>
      id !in dir && GoodID(id) && GoodID(org) && GoodParent(parent)
          && (creator.Some? ==> CleanID(creator.value.subjectID))
    case UpdateGroup(org, id, parent) => InOrg(dir, org, id) && GoodParent(parent)
    case DeleteGroup(org, id) => InOrg(dir, org, id)
    case AssignUser(org, id, user) => InOrg(dir, org, id) && GoodID(user)
    case RemoveUser(org, id, user) => InOrg(dir, org, id) && GoodID(user)
    case DeleteUser(user) => GoodID(user)
  }

  function DirectoryAfter(dir: Registry, op: Op): Registry
    requires Accepted(dir, op)
  {
    match op
    case CreateGroup(id, org, parent, _) => dir[id := Record(org, parent, {})]
    case UpdateGroup(_, id, parent) => dir[id := dir[id].(parent := parent)]
    case DeleteGroup(_, id) => dir - {id}
    case AssignUser(_, id, user) => dir[id := dir[id].(members := dir[id].members + {user})]
    case RemoveUser(_, id, user) => dir[id := dir[id].(members := dir[id].members - {user})]
    case DeleteUser(user) => map g | g in dir :: dir[g].(members := dir[g].members - {user})
  }

  /** ListGroups filtered by organization and user is not empty. */
  predicate InSomeGroup(dir: Registry, org: string, user: string) {
    exists g :: g in dir && dir[g].org == org && user in dir[g].members
  }

  /** The events an operation dispatches, in order, once the provider has done its part. */
  function EventsOf(dir: Registry, op: Op): seq<Applied>
    requires Accepted(dir, op)
  {
    var after := DirectoryAfter(dir, op);
    match op
    case CreateGroup(id, _, _, creator) =>
      [Done(GroupCreated(AsGroup(id, after[id]), AsGroup(id, after[id]), creator))]
    case UpdateGroup(_, id, _) =>
      [Done(GroupDetached(AsGroup(id, dir[id]), AsGroup(id, after[id]))),
       Done(GroupAttached(AsGroup(id, after[id]), AsGroup(id, after[id])))]
    case DeleteGroup(org, id) => [Done(GroupDeleted(org, id))]
    case AssignUser(org, id, user) => [Done(MemberAssigned(org, id, user))]
    case RemoveUser(org, id, user) => [Done(MemberRemoved(org, id, user, !InSomeGroup(after, org, user)))]
    case DeleteUser(user) => [Done(UserPurged(user))]
  }

  ghost function Apply(s: Store, e: Event): Store {
    Full(s, EventPlan(e, []))
  }

  ghost function StoreAfter(dir: Registry, s: Store, op: Op): Store
    requires Accepted(dir, op)
  {
    AfterAll(s, EventsOf(dir, op))
  }

  ghost predicate Healthy(dir: Registry, s: Store) {
    GoodRegistry(dir) && Agrees(dir, s) && ZoneMembersHeld(dir, s)
  }

  // ---------- the effect of each event, tuple by tuple ----------

  lemma TopologyIs(id: string, rec: Record, r: Relationship)
    requires GoodID(id) && GoodRecord(rec)
    ensures r in CleanedSet(Topology(AsGroup(id, rec), AsGroup(id, rec))) <==> TopologyHas(id, rec, r)
  {
    hide Trim, CleanedSet;
    var rels := Topology(AsGroup(id, rec), AsGroup(id, rec));
    assert rels == TopologyEdges(rec.org, id, rec.parent);
    TopologyCleaned(id, rec);
    assert r in Elements(rels) <==> TopologyHas(id, rec, r);
  }

  lemma TopologyCleaned(id: string, rec: Record)
    requires GoodID(id) && GoodRecord(rec)
    ensures CleanedSet(TopologyEdges(rec.org, id, rec.parent)) == Elements(TopologyEdges(rec.org, id, rec.parent))
  {
    hide ZoneEdge, ParentEdge, ChildEdge, Zero, Cleaned, GoodRecord;
    var rels := TopologyEdges(rec.org, id, rec.parent);
    assert GoodID(rec.org) && GoodParent(rec.parent) by { RecordParts(rec); }
    ZoneClean(id, rec.org);
    if rec.parent != "" { LinksClean(id, rec.parent); }
    assert forall r :: r in rels ==> !Zero(r) && Cleaned(r) == r;
  }

  lemma ZoneClean(id: string, org: string)
    requires GoodID(id) && GoodID(org)
    ensures !Zero(ZoneEdge(id, org)) && Cleaned(ZoneEdge(id, org)) == ZoneEdge(id, org)
  {
    hide CleanID, Trim;
    TrimmedIsCleaned(ZoneEdge(id, org));
  }

  lemma TrimmedIsCleaned(r: Relationship)
    requires Trimmed(r.resource.id) && Trimmed(r.subject.id)
    ensures Cleaned(r) == r
  {
    hide Trimmed, Trim;
  }

  lemma CleanedSetConcat(a: seq<Relationship>, b: seq<Relationship>)
    ensures CleanedSet(a + b) == CleanedSet(a) + CleanedSet(b)
  {
    hide Zero, Cleaned;
  }

  lemma WriteApplied(s: Store, e: Event, r: Relationship)
    requires IsWrite(e) && CleanEvent(e)
    ensures r in Apply(s, e) <==> r in s || r in CleanedSet(Written(e))
  {
    hide EventPlan, CleanedSet, Written, CleanEvent;
    WriteEventPlan(e);
    assert r in EventPlan(e, []).rels <==> r in Elements(EventPlan(e, []).rels);
  }

  lemma DeleteApplied(s: Store, e: Event, r: Relationship)
    requires !IsWrite(e)
    ensures r in Apply(s, e) <==> r in s && !Hit(DeletedBy(e), r)
  {
    hide EventPlan, DeletedBy, Hit;
    DeleteEventPlan(e, []);
    FullRemove(s, DeletedBy(e));
  }

  lemma OwnerNotIndexed(id: string, creator: Option<Principal>, r: Relationship)
    requires OwnerOf(creator).Some? && r in CleanedSet([OwnerEdge(id, OwnerOf(creator).value)])
    ensures !IsIndexed(r) && r.resource.typ == "group"
  {
    assert "owner"[0] == 'o' && "parent"[0] == 'p' && "member"[0] == 'm' && "zone"[0] == 'z';
  }

  lemma AttachApplied(s: Store, id: string, rec: Record, r: Relationship)
    requires GoodID(id) && GoodRecord(rec)
    ensures r in Apply(s, GroupAttached(AsGroup(id, rec), AsGroup(id, rec))) <==> r in s || TopologyHas(id, rec, r)
  {
    hide Apply, CleanedSet, Topology, TopologyHas;
    WriteApplied(s, GroupAttached(AsGroup(id, rec), AsGroup(id, rec)), r);
    TopologyIs(id, rec, r);
  }

  lemma CreateApplied(s: Store, id: string, rec: Record, creator: Option<Principal>, r: Relationship)
    requires GoodID(id) && GoodRecord(rec) && (creator.Some? ==> CleanID(creator.value.subjectID))
    requires IsIndexed(r) || r.resource.typ != "group"
    ensures r in Apply(s, GroupCreated(AsGroup(id, rec), AsGroup(id, rec), creator))
        <==> r in s || TopologyHas(id, rec, r)
  {
    hide Apply, CleanedSet, Topology, TopologyHas, OwnerOf, OwnerEdge, IsIndexed, Trim;
    var group := AsGroup(id, rec);
    WriteApplied(s, GroupCreated(group, group, creator), r);
    TopologyIs(id, rec, r);
    var owner := OwnerOf(creator);
    if owner.Some? {
      CleanedSetConcat(Topology(group, group), [OwnerEdge(id, owner.value)]);
      if r in CleanedSet([OwnerEdge(id, owner.value)]) {
        OwnerNotIndexed(id, creator, r);
      }
    } else {
      assert Topology(group, group) + [] == Topology(group, group);
    }
  }

  lemma DetachApplied(s: Store, id: string, rec: Record, next: Record, r: Relationship)
    requires GoodID(id) && GoodRecord(rec) && GoodRecord(next)
    ensures r in Apply(s, GroupDetached(AsGroup(id, rec), AsGroup(id, next)))
      <==> r in s && !(r.resource.typ == "group" && (
             || (r.resource.id == id && (r.relation == "zone" || r.relation == "parent"))
             || (r.relation == "member" && r.subject == SubjectRef("group", id, "member"))))
  {
    hide Apply, Trim;
    var e := GroupDetached(AsGroup(id, rec), AsGroup(id, next));
    DeleteApplied(s, e, r);
    var fs := TopologyFilters(AsGroup(id, rec), AsGroup(id, next));
    assert fs == [Filter("group", id, "zone", "", "", ""), Filter("group", id, "parent", "", "", ""),
                  Filter("group", "", "member", "group", id, "member")];
    assert Hit(fs, r) <==> Matches(fs[0], r) || Matches(fs[1], r) || Matches(fs[2], r);
  }

  lemma DeleteGroupApplied(s: Store, org: string, id: string, r: Relationship)
    requires GoodID(id)
    ensures r in Apply(s, GroupDeleted(org, id))
      <==> (r in s && !(r.resource.typ == "group" && r.resource.id == id)
            && !(r.subject.typ == "group" && r.subject.id == id))
  {
    hide Apply, Trim, Hit, GroupFilters;
    DeleteApplied(s, GroupDeleted(org, id), r);
    GroupFilterHits(org, id, r);
    var fs := GroupFilters(org, id);
    assert fs[..3] == fs;
  }

  lemma AssignApplied(s: Store, org: string, id: string, user: string, r: Relationship)
    requires GoodID(org) && GoodID(id) && GoodID(user)
    ensures r in Apply(s, MemberAssigned(org, id, user))
        <==> r in s || r == UserEdge(id, user) || r == ZoneMemberEdge(org, user)
  {
    hide Apply, Trim, Zero, Cleaned;
    WriteApplied(s, MemberAssigned(org, id, user), r);
    var rels := Assignment(org, id, user);
    assert rels == [UserEdge(id, user), ZoneMemberEdge(org, user)];
    MemberEdgesClean(org, id, user);
    assert CleanedSet(rels) == {UserEdge(id, user), ZoneMemberEdge(org, user)};
  }

  lemma MemberEdgesClean(org: string, id: string, user: string)
    requires GoodID(org) && GoodID(id) && GoodID(user)
    ensures !Zero(UserEdge(id, user)) && Cleaned(UserEdge(id, user)) == UserEdge(id, user)
    ensures !Zero(ZoneMemberEdge(org, user)) && Cleaned(ZoneMemberEdge(org, user)) == ZoneMemberEdge(org, user)
  {
  }

  /** Only these two edges go, the zone's only with the last group. */
  lemma RemoveApplied(s: Store, org: string, id: string, user: string, last: bool, r: Relationship)
    requires GoodID(org) && GoodID(id) && GoodID(user)
    ensures r in Apply(s, MemberRemoved(org, id, user, last))
      <==> r in s
           && !(r.(subject := r.subject.(relation := "")) == UserEdge(id, user))
           && !(last && r.(subject := r.subject.(relation := "")) == ZoneMemberEdge(org, user))
  {
    hide Apply, Trim;
    DeleteApplied(s, MemberRemoved(org, id, user, last), r);
    var fs := Removal(org, id, user, last).filters;
    assert fs == [MemberFilter(id, user)] + (if last then [ZoneMemberFilter(org, user)] else []);
    assert Matches(MemberFilter(id, user), r) <==> r.(subject := r.subject.(relation := "")) == UserEdge(id, user);
    assert Matches(ZoneMemberFilter(org, user), r)
        <==> r.(subject := r.subject.(relation := "")) == ZoneMemberEdge(org, user);
    if last {
      assert fs[1] == ZoneMemberFilter(org, user);
    }
    assert fs[0] == MemberFilter(id, user);
  }

  lemma PurgeApplied(s: Store, user: string, r: Relationship)
    requires GoodID(user)
    ensures r in Apply(s, UserPurged(user))
      <==> r in s && !(r.subject.typ == "user" && r.subject.id == user && r.resource.typ in USER_RESOURCE_TYPES)
  {
    hide Apply, Trim, Hit, UserFilters;
    DeleteApplied(s, UserPurged(user), r);
    UserFilterHits(user, r);
  }

  lemma PurgeAppliedToGroup(s: Store, user: string, r: Relationship)
    requires GoodID(user) && r.resource.typ == "group"
    ensures r in Apply(s, UserPurged(user)) <==> r in s && !(r.subject.typ == "user" && r.subject.id == user)
  {
    hide Apply;
    PurgeApplied(s, user, r);
    assert USER_RESOURCE_TYPES[2] == "group";
  }

  // ---------- every operation keeps the agreement ----------

  /** The one group whose record can project the tuple. */
  function Source(r: Relationship): string {
    if r.relation == "member" && r.subject.typ == "group" then r.subject.id else r.resource.id
  }

  lemma HasAtSource(id: string, rec: Record, r: Relationship)
    requires Has(id, rec, r)
    ensures Source(r) == id && IsIndexed(r)
  {
    RelationsDiffer();
  }

  lemma ProjectionIsLocal(dir: Registry, r: Relationship)
    ensures InProjection(dir, r) <==> Source(r) in dir && Has(Source(r), dir[Source(r)], r)
  {
    hide Has, Source;
    if InProjection(dir, r) {
      var g :| g in dir && Has(g, dir[g], r);
      HasAtSource(g, dir[g], r);
    }
  }

  lemma OneEvent(s: Store, e: Event)
    ensures AfterAll(s, [Done(e)]) == Apply(s, e)
  {
    hide EventPlan, Full;
    assert [Done(e)][..0] == [];
  }

  lemma TwoEvents(s: Store, e: Event, f: Event)
    ensures AfterAll(s, [Done(e), Done(f)]) == Apply(Apply(s, e), f)
  {
    hide EventPlan, Full;
    assert [Done(e), Done(f)][..1] == [Done(e)];
    OneEvent(s, e);
  }

  lemma RecordParts(rec: Record)
    requires GoodRecord(rec)
    ensures GoodID(rec.org) && GoodParent(rec.parent)
  {
  }

  lemma KeepsGood(dir: Registry, op: Op)
    requires GoodRegistry(dir) && Accepted(dir, op)
    ensures GoodRegistry(DirectoryAfter(dir, op))
  {
    hide GoodID, GoodParent, CleanID;
  }

  lemma TopologyIgnoresMembers(id: string, rec: Record, next: Record, r: Relationship)
    requires next.org == rec.org && next.parent == rec.parent
    ensures TopologyHas(id, next, r) <==> TopologyHas(id, rec, r)
  {
  }

  lemma TopologyNotUser(id: string, rec: Record, r: Relationship)
    requires TopologyHas(id, rec, r)
    ensures r.subject.typ != "user"
  {
  }

  lemma ZoneResource(org: string, user: string)
    ensures ZoneMemberEdge(org, user).resource.typ == "zone" && !IsIndexed(ZoneMemberEdge(org, user))
    ensures forall id, rec :: !TopologyHas(id, rec, ZoneMemberEdge(org, user))
  {
  }

  lemma CreateIndexed(dir: Registry, s: Store, op: Op, r: Relationship)
    requires op.CreateGroup? && Accepted(dir, op) && GoodRegistry(dir) && IsIndexed(r)
    requires r in s <==> InProjection(dir, r)
    ensures r in StoreAfter(dir, s, op) <==> InProjection(DirectoryAfter(dir, op), r)
  {
    hide Apply, TopologyHas, IsIndexed, Source, GoodRegistry;
    var dir' := DirectoryAfter(dir, op);
    var rec := dir'[op.id];
    OneEvent(s, GroupCreated(AsGroup(op.id, rec), AsGroup(op.id, rec), op.creator));
    CreateApplied(s, op.id, rec, op.creator, r);
    ProjectionIsLocal(dir, r);
    ProjectionIsLocal(dir', r);
    if TopologyHas(op.id, rec, r) { HasAtSource(op.id, rec, r); }
  }

  lemma CreateZone(dir: Registry, s: Store, op: Op, org: string, user: string)
    requires op.CreateGroup? && Accepted(dir, op)
    ensures ZoneMemberEdge(org, user) in s <==> ZoneMemberEdge(org, user) in StoreAfter(dir, s, op)
  {
    hide Apply, TopologyHas, IsIndexed, ZoneMemberEdge;
    var rec := DirectoryAfter(dir, op)[op.id];
    OneEvent(s, GroupCreated(AsGroup(op.id, rec), AsGroup(op.id, rec), op.creator));
    ZoneResource(org, user);
    assert "zone" != "group" by { assert |"zone"| != |"group"|; }
    CreateApplied(s, op.id, rec, op.creator, ZoneMemberEdge(org, user));
  }

  lemma UpdateStore(dir: Registry, s: Store, op: Op, r: Relationship)
    requires op.UpdateGroup? && Accepted(dir, op) && GoodRegistry(dir)
    ensures r in StoreAfter(dir, s, op) <==>
      || TopologyHas(op.id, DirectoryAfter(dir, op)[op.id], r)
      || (r in s && !(r.resource.typ == "group" && (
            || (r.resource.id == op.id && (r.relation == "zone" || r.relation == "parent"))
            || (r.relation == "member" && r.subject == SubjectRef("group", op.id, "member")))))
  {
    hide Apply, TopologyHas, CleanID;
    var rec, next := dir[op.id], DirectoryAfter(dir, op)[op.id];
    assert GoodRecord(next) by { KeepsGood(dir, op); }
    var detach := GroupDetached(AsGroup(op.id, rec), AsGroup(op.id, next));
    TwoEvents(s, detach, GroupAttached(AsGroup(op.id, next), AsGroup(op.id, next)));
    DetachApplied(s, op.id, rec, next, r);
    AttachApplied(Apply(s, detach), op.id, next, r);
  }

  lemma UpdateIndexed(dir: Registry, s: Store, op: Op, r: Relationship)
    requires op.UpdateGroup? && Accepted(dir, op) && GoodRegistry(dir) && IsIndexed(r)
    requires r in s <==> InProjection(dir, r)
    ensures r in StoreAfter(dir, s, op) <==> InProjection(DirectoryAfter(dir, op), r)
  {
    hide StoreAfter, GoodRegistry;
    var dir' := DirectoryAfter(dir, op);
    var rec, next := dir[op.id], dir'[op.id];
    UpdateStore(dir, s, op, r);
    ProjectionIsLocal(dir, r);
    ProjectionIsLocal(dir', r);
    RelationsDiffer();
    if Has(op.id, next, r) { HasAtSource(op.id, next, r); }
    if Has(op.id, rec, r) { HasAtSource(op.id, rec, r); }
  }

  lemma UpdateZone(dir: Registry, s: Store, op: Op, org: string, user: string)
    requires op.UpdateGroup? && Accepted(dir, op) && GoodRegistry(dir)
    ensures ZoneMemberEdge(org, user) in s <==> ZoneMemberEdge(org, user) in StoreAfter(dir, s, op)
  {
    hide StoreAfter, TopologyHas, GoodRegistry;
    UpdateStore(dir, s, op, ZoneMemberEdge(org, user));
    ZoneResource(org, user);
    assert "zone" != "group" by { assert |"zone"| != |"group"|; }
  }

  /** No other group of the directory has this one as its parent. */
  predicate Leaf(dir: Registry, id: string) {
    forall c :: c in dir && c != id ==> !(HasParent(c, dir[c]) && dir[c].parent == id)
  }

  lemma DeleteStore(dir: Registry, s: Store, op: Op, r: Relationship)
    requires op.DeleteGroup? && Accepted(dir, op) && GoodRegistry(dir)
    ensures r in StoreAfter(dir, s, op)
      <==> (r in s && !(r.resource.typ == "group" && r.resource.id == op.id)
            && !(r.subject.typ == "group" && r.subject.id == op.id))
  {
    hide Apply;
    OneEvent(s, GroupDeleted(op.org, op.id));
    DeleteGroupApplied(s, op.org, op.id, r);
  }

  lemma DeleteIndexed(dir: Registry, s: Store, op: Op, r: Relationship)
    requires op.DeleteGroup? && Accepted(dir, op) && GoodRegistry(dir) && Leaf(dir, op.id) && IsIndexed(r)
    requires r in s <==> InProjection(dir, r)
    ensures r in StoreAfter(dir, s, op) <==> InProjection(DirectoryAfter(dir, op), r)
  {
    hide StoreAfter, GoodRegistry;
    DeleteStore(dir, s, op, r);
    ProjectionIsLocal(dir, r);
    ProjectionIsLocal(DirectoryAfter(dir, op), r);
  }

  lemma DeleteZone(dir: Registry, s: Store, op: Op, org: string, user: string)
    requires op.DeleteGroup? && Accepted(dir, op) && GoodRegistry(dir)
    ensures ZoneMemberEdge(org, user) in s <==> ZoneMemberEdge(org, user) in StoreAfter(dir, s, op)
  {
    hide StoreAfter, GoodRegistry;
    DeleteStore(dir, s, op, ZoneMemberEdge(org, user));
  }

  /** A child of the deleted group: the directory keeps its parent field, the
      store loses the edge. */
  lemma DeleteBreaksChild(dir: Registry, s: Store, op: Op)
    requires op.DeleteGroup? && Accepted(dir, op) && GoodRegistry(dir) && !Leaf(dir, op.id)
    ensures !Agrees(DirectoryAfter(dir, op), StoreAfter(dir, s, op))
  {
    hide StoreAfter, GoodRegistry;
    var c :| c in dir && c != op.id && HasParent(c, dir[c]) && dir[c].parent == op.id;
    var r := ParentEdge(c, op.id);
    DeleteStore(dir, s, op, r);
    ProjectionIsLocal(DirectoryAfter(dir, op), r);
  }

  lemma AssignIndexed(dir: Registry, s: Store, op: Op, r: Relationship)
    requires op.AssignUser? && Accepted(dir, op) && GoodRegistry(dir) && IsIndexed(r)
    requires r in s <==> InProjection(dir, r)
    ensures r in StoreAfter(dir, s, op) <==> InProjection(DirectoryAfter(dir, op), r)
  {
    hide Apply, GoodRecord, TopologyHas;
    var dir' := DirectoryAfter(dir, op);
    assert GoodID(op.org) by { RecordParts(dir[op.id]); }
    OneEvent(s, MemberAssigned(op.org, op.id, op.user));
    AssignApplied(s, op.org, op.id, op.user, r);
    ProjectionIsLocal(dir, r);
    ProjectionIsLocal(dir', r);
    TopologyIgnoresMembers(op.id, dir[op.id], dir'[op.id], r);
  }

  lemma AssignZone(dir: Registry, s: Store, op: Op, org: string, user: string)
    requires op.AssignUser? && Accepted(dir, op) && GoodRegistry(dir)
    ensures ZoneMemberEdge(org, user) in StoreAfter(dir, s, op)
      <==> ZoneMemberEdge(org, user) in s || (org == op.org && user == op.user)
  {
    hide Apply, GoodRecord;
    assert GoodID(op.org) by { RecordParts(dir[op.id]); }
    OneEvent(s, MemberAssigned(op.org, op.id, op.user));
    AssignApplied(s, op.org, op.id, op.user, ZoneMemberEdge(org, user));
  }

  lemma RemoveStore(dir: Registry, s: Store, op: Op, r: Relationship)
    requires op.RemoveUser? && Accepted(dir, op) && GoodRegistry(dir)
    ensures r in StoreAfter(dir, s, op)
      <==> r in s
           && !(r.(subject := r.subject.(relation := "")) == UserEdge(op.id, op.user))
           && !(!InSomeGroup(DirectoryAfter(dir, op), op.org, op.user)
                && r.(subject := r.subject.(relation := "")) == ZoneMemberEdge(op.org, op.user))
  {
    hide Apply, GoodRecord, InSomeGroup, UserEdge, ZoneMemberEdge;
    var last := !InSomeGroup(DirectoryAfter(dir, op), op.org, op.user);
    assert GoodID(op.org) by { RecordParts(dir[op.id]); }
    OneEvent(s, MemberRemoved(op.org, op.id, op.user, last));
    RemoveApplied(s, op.org, op.id, op.user, last, r);
  }

  lemma RemoveIndexed(dir: Registry, s: Store, op: Op, r: Relationship)
    requires op.RemoveUser? && Accepted(dir, op) && GoodRegistry(dir) && IsIndexed(r)
    requires r in s <==> InProjection(dir, r)
    ensures r in StoreAfter(dir, s, op) <==> InProjection(DirectoryAfter(dir, op), r)
  {
    hide StoreAfter, GoodRegistry, TopologyHas, InSomeGroup;
    var dir' := DirectoryAfter(dir, op);
    RemoveStore(dir, s, op, r);
    ProjectionIsLocal(dir, r);
    ProjectionIsLocal(dir', r);
    TopologyIgnoresMembers(op.id, dir[op.id], dir'[op.id], r);
    if Source(r) in dir && TopologyHas(Source(r), dir[Source(r)], r) {
      TopologyNotUser(Source(r), dir[Source(r)], r);
    }
  }

  lemma RemoveZone(dir: Registry, s: Store, op: Op, org: string, user: string)
    requires op.RemoveUser? && Accepted(dir, op) && GoodRegistry(dir)
    ensures ZoneMemberEdge(org, user) in StoreAfter(dir, s, op)
      <==> ZoneMemberEdge(org, user) in s
           && !(org == op.org && user == op.user && !InSomeGroup(DirectoryAfter(dir, op), op.org, op.user))
  {
    hide StoreAfter, GoodRegistry, InSomeGroup;
    RemoveStore(dir, s, op, ZoneMemberEdge(org, user));
    assert "zone" != "group" by { assert |"zone"| != |"group"|; }
  }

  lemma PurgeStore(dir: Registry, s: Store, op: Op, r: Relationship)
    requires op.DeleteUser? && Accepted(dir, op) && r.resource.typ == "group"
    ensures r in StoreAfter(dir, s, op) <==> r in s && !(r.subject.typ == "user" && r.subject.id == op.user)
  {
    hide Apply;
    OneEvent(s, UserPurged(op.user));
    PurgeAppliedToGroup(s, op.user, r);
  }

  lemma PurgeIndexed(dir: Registry, s: Store, op: Op, r: Relationship)
    requires op.DeleteUser? && Accepted(dir, op) && IsIndexed(r)
    requires r in s <==> InProjection(dir, r)
    ensures r in StoreAfter(dir, s, op) <==> InProjection(DirectoryAfter(dir, op), r)
  {
    hide StoreAfter, TopologyHas;
    var dir' := DirectoryAfter(dir, op);
    PurgeStore(dir, s, op, r);
    ProjectionIsLocal(dir, r);
    ProjectionIsLocal(dir', r);
    var g := Source(r);
    if g in dir {
      TopologyIgnoresMembers(g, dir[g], dir'[g], r);
      if TopologyHas(g, dir[g], r) {
        TopologyNotUser(g, dir[g], r);
      }
    }
  }

  lemma PurgeZone(dir: Registry, s: Store, op: Op, org: string, user: string)
    requires op.DeleteUser? && Accepted(dir, op) && user != op.user
    ensures ZoneMemberEdge(org, user) in StoreAfter(dir, s, op) <==> ZoneMemberEdge(org, user) in s
  {
    hide Apply;
    OneEvent(s, UserPurged(op.user));
    PurgeApplied(s, op.user, ZoneMemberEdge(org, user));
  }

  lemma OperationIndexed(dir: Registry, s: Store, op: Op, r: Relationship)
    requires Accepted(dir, op) && GoodRegistry(dir) && IsIndexed(r) && (op.DeleteGroup? ==> Leaf(dir, op.id))
    requires r in s <==> InProjection(dir, r)
    ensures r in StoreAfter(dir, s, op) <==> InProjection(DirectoryAfter(dir, op), r)
  {
    hide Accepted, StoreAfter, DirectoryAfter, GoodRegistry, IsIndexed, Leaf, InProjection;
    match op
    case CreateGroup(_, _, _, _) => CreateIndexed(dir, s, op, r);
    case UpdateGroup(_, _, _) => UpdateIndexed(dir, s, op, r);
    case DeleteGroup(_, _) => DeleteIndexed(dir, s, op, r);
    case AssignUser(_, _, _) => AssignIndexed(dir, s, op, r);
    case RemoveUser(_, _, _) => RemoveIndexed(dir, s, op, r);
    case DeleteUser(_) => PurgeIndexed(dir, s, op, r);
  }

  lemma OperationZone(dir: Registry, s: Store, op: Op, g: string, user: string)
    requires Accepted(dir, op) && GoodRegistry(dir) && ZoneMembersHeld(dir, s)
    requires var dir' := DirectoryAfter(dir, op); g in dir' && user in dir'[g].members
    ensures ZoneMemberEdge(DirectoryAfter(dir, op)[g].org, user) in StoreAfter(dir, s, op)
  {
    hide StoreAfter, GoodRegistry, ZoneMemberEdge;
    var org := DirectoryAfter(dir, op)[g].org;
    match op
    case CreateGroup(_, _, _, _) => CreateZone(dir, s, op, org, user);
    case UpdateGroup(_, _, _) => UpdateZone(dir, s, op, org, user);
    case DeleteGroup(_, _) => DeleteZone(dir, s, op, org, user);
    case AssignUser(_, _, _) => AssignZone(dir, s, op, org, user);
    case RemoveUser(_, _, _) => RemoveZone(dir, s, op, org, user);
    case DeleteUser(_) => PurgeZone(dir, s, op, org, user);
  }

  lemma OperationKeepsHealthy(dir: Registry, s: Store, op: Op)
    requires Accepted(dir, op) && Healthy(dir, s) && (op.DeleteGroup? ==> Leaf(dir, op.id))
    ensures Healthy(DirectoryAfter(dir, op), StoreAfter(dir, s, op))
  {
    hide Accepted, StoreAfter, DirectoryAfter, GoodRegistry, IsIndexed, Leaf, InProjection, ZoneMemberEdge;
    var dir', s' := DirectoryAfter(dir, op), StoreAfter(dir, s, op);
    KeepsGood(dir, op);
    forall r | IsIndexed(r)
      ensures r in s' <==> InProjection(dir', r)
    {
      OperationIndexed(dir, s, op, r);
    }
    forall g, u | g in dir' && u in dir'[g].members
      ensures ZoneMemberEdge(dir'[g].org, u) in s'
    {
      OperationZone(dir, s, op, g, u);
    }
  }

  /** Deleting a group keeps the agreement exactly when it is a leaf. */
  lemma DeleteKeepsIffLeaf(dir: Registry, s: Store, op: Op)
    requires op.DeleteGroup? && Accepted(dir, op) && Healthy(dir, s)
    ensures Healthy(DirectoryAfter(dir, op), StoreAfter(dir, s, op)) <==> Leaf(dir, op.id)
  {
    hide Accepted, StoreAfter, DirectoryAfter, GoodRegistry, Agrees, Leaf;
    if Leaf(dir, op.id) {
      OperationKeepsHealthy(dir, s, op);
    } else {
      DeleteBreaksChild(dir, s, op);
    }
  }

  // ---------- runs ----------

  /** A run of operations; one the provider refuses changes nothing. */
  ghost function Ran(dir: Registry, s: Store, ops: seq<Op>): (Registry, Store) {
    if ops == [] then (dir, s)
    else
      var (d, t) := Ran(dir, s, ops[..|ops| - 1]);
      var op := ops[|ops| - 1];
      if Accepted(d, op) then (DirectoryAfter(d, op), StoreAfter(d, t, op)) else (d, t)
  }

  /** Every group deleted in the run is a leaf when it is deleted. */
  ghost predicate DeletesLeaves(dir: Registry, s: Store, ops: seq<Op>) {
    forall i :: 0 <= i < |ops| && ops[i].DeleteGroup? ==> Leaf(Ran(dir, s, ops[..i]).0, ops[i].id)
  }

  /** Over every run the store's group tuples are exactly the projection of the
      directory, and every user in some group of a zone is a member of the zone. */
  lemma {:induction false} EveryRunAgrees(dir: Registry, s: Store, ops: seq<Op>)
    requires Healthy(dir, s) && DeletesLeaves(dir, s, ops)
    ensures Healthy(Ran(dir, s, ops).0, Ran(dir, s, ops).1)
    decreases |ops|
  {
    hide Accepted, DirectoryAfter, StoreAfter, Healthy, Leaf;
    if ops != [] {
      var n := |ops| - 1;
      assert forall i :: 0 <= i < n ==> ops[..n][..i] == ops[..i];
      EveryRunAgrees(dir, s, ops[..n]);
      var (d, t) := Ran(dir, s, ops[..n]);
      if Accepted(d, ops[n]) {
        OperationKeepsHealthy(d, t, ops[n]);
      }
    }
  }
}
