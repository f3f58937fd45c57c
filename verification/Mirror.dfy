/** `group:g#parent@group:p` and `group:p#member@group:g#member` mirror each other
    in every store that fully applied events lead to, whatever their order and
    repetition. */
module Mirror {
  import opened Text
  import opened Relationships
  import opened Projection
  import opened Directory
  import opened EventPlans

  ghost predicate Mirrored(s: Store) {
    forall g, p :: ParentEdge(g, p) in s <==> ChildEdge(p, g) in s
  }

  /** The tuple a wildcard on the subject relation would confuse with ChildEdge. */
  function BareChild(parent: string, group: string): Relationship {
    Relationship(ObjectRef("group", parent), "member", SubjectRef("group", group, ""))
  }

  predicate IsLink(r: Relationship) {
    r.resource.typ == "group" && r.subject.typ == "group" && (r.relation == "parent" || r.relation == "member")
  }

  lemma LinkEdges(a: string, b: string)
    ensures IsLink(ParentEdge(a, b)) && IsLink(ChildEdge(a, b)) && IsLink(BareChild(a, b))
    ensures !IsLink(ZoneEdge(a, b)) && !IsLink(UserEdge(a, b)) && !IsLink(ZoneMemberEdge(a, b))
        && !IsLink(PlatformEdge(a))
    ensures forall owner :: !IsLink(OwnerEdge(a, owner))
  {
    assert "owner"[0] == 'o' && "parent"[0] == 'p' && "member"[0] == 'm';
  }

  ghost predicate Paired(w: Store) {
    Mirrored(w) && forall g, p :: BareChild(p, g) !in w
  }

  ghost predicate NoLinks(rels: seq<Relationship>) {
    forall r :: r in rels ==> !IsLink(r)
  }

  lemma NoLinksPaired(rels: seq<Relationship>)
    requires NoLinks(rels)
    ensures Paired(CleanedSet(rels))
  {
    forall r | r in CleanedSet(rels)
      ensures !IsLink(r)
    {
      var x :| x in rels && !Zero(x) && Cleaned(x) == r;
    }
    forall g, p
      ensures ParentEdge(g, p) !in CleanedSet(rels) && ChildEdge(p, g) !in CleanedSet(rels)
          && BareChild(p, g) !in CleanedSet(rels)
    {
      LinkEdges(g, p);
      LinkEdges(p, g);
    }
  }

  lemma ConcatPaired(a: seq<Relationship>, b: seq<Relationship>)
    requires Paired(CleanedSet(a)) && Paired(CleanedSet(b))
    ensures Paired(CleanedSet(a + b))
  {
    hide ParentEdge, ChildEdge, BareChild, Zero, Cleaned;
    assert CleanedSet(a + b) == CleanedSet(a) + CleanedSet(b);
  }

  lemma PairPaired(g: string, p: string)
    requires g != "" && p != "" && Trimmed(g) && Trimmed(p)
    ensures Paired(CleanedSet([ParentEdge(g, p), ChildEdge(p, g)]))
  {
    hide Cleaned, Zero;
    var rels := [ParentEdge(g, p), ChildEdge(p, g)];
    LinksClean(g, p);
    assert CleanedSet(rels) == {ParentEdge(g, p), ChildEdge(p, g)};
    forall h, q
      ensures ParentEdge(h, q) in CleanedSet(rels) <==> h == g && q == p
      ensures ChildEdge(q, h) in CleanedSet(rels) <==> h == g && q == p
      ensures BareChild(q, h) !in CleanedSet(rels)
    {
      RelationsDiffer();
    }
  }

  lemma LinksClean(g: string, p: string)
    requires g != "" && p != "" && Trimmed(g) && Trimmed(p)
    ensures !Zero(ParentEdge(g, p)) && Cleaned(ParentEdge(g, p)) == ParentEdge(g, p)
    ensures !Zero(ChildEdge(p, g)) && Cleaned(ChildEdge(p, g)) == ChildEdge(p, g)
  {
  }

  lemma TopologyEdgesPaired(orgID: string, groupID: string, parentID: string)
    requires Trimmed(groupID) && Trimmed(parentID)
    ensures Paired(CleanedSet(TopologyEdges(orgID, groupID, parentID)))
  {
    hide ZoneEdge, ParentEdge, ChildEdge, IsLink, Paired, CleanedSet;
    LinkEdges(groupID, orgID);
    var zone := if orgID != "" then [ZoneEdge(groupID, orgID)] else [];
    NoLinksPaired(zone);
    NoLinksPaired([]);
    if groupID != "" && parentID != "" {
      PairPaired(groupID, parentID);
      ConcatPaired(zone, [ParentEdge(groupID, parentID), ChildEdge(parentID, groupID)]);
      ConcatPaired(zone, []);
    } else {
      ConcatPaired(zone, []);
    }
  }

  lemma TopologyPaired(primary: Group, fallback: Group)
    ensures Paired(CleanedSet(Topology(primary, fallback)))
  {
    hide TopologyEdges, FirstNonEmpty, Trim, Paired, CleanedSet;
    var orgID := FirstNonEmpty(primary.orgID, fallback.orgID);
    var groupID := QualifiedGroupID(orgID, FirstNonEmpty(primary.id, fallback.id));
    var parentID := QualifiedGroupID(orgID, FirstNonEmpty(primary.parentID, fallback.parentID));
    TopologyEdgesPaired(orgID, groupID, parentID);
  }

  lemma {:induction false} MembershipsNoLinks(groups: seq<string>, orgID: string, userID: string)
    ensures NoLinks(MembershipsOf(groups, orgID, userID))
  {
    hide UserEdge, IsLink, Trim;
    if groups != [] {
      MembershipsNoLinks(groups[..|groups| - 1], orgID, userID);
      LinkEdges(Trim(QualifiedGroupID(orgID, groups[|groups| - 1])), Trim(userID));
    }
  }

  lemma {:induction false} MembersNoLinks(group: Group, orgID: string, users: seq<string>)
    ensures NoLinks(MembersOf(group, orgID, users))
  {
    hide UserEdge, IsLink, Trim, FirstNonEmpty;
    if users != [] {
      MembersNoLinks(group, orgID, users[..|users| - 1]);
      LinkEdges(Trim(QualifiedGroupID(FirstNonEmpty(group.orgID, orgID), group.id)), Trim(users[|users| - 1]));
    }
  }

  lemma {:induction false} UsersNoLinks(orgID: string, users: seq<User>)
    ensures NoLinks(UsersProjection(orgID, users))
  {
    hide ZoneMemberEdge, IsLink, Trim;
    if users != [] {
      var user := users[|users| - 1];
      UsersNoLinks(orgID, users[..|users| - 1]);
      MembershipsNoLinks(user.groups, orgID, user.id);
      LinkEdges(orgID, Trim(user.id));
    }
  }

  lemma {:induction false} GroupsPaired(orgID: string, groups: seq<Group>)
    ensures Paired(CleanedSet(GroupsProjection(orgID, groups)))
  {
    hide Topology, MembersOf, NoLinks, Paired, CleanedSet;
    if groups == [] {
      assert NoLinks([]) by { EmptyNoLinks(); }
      NoLinksPaired([]);
    } else {
      var group := groups[|groups| - 1];
      var init := GroupsProjection(orgID, groups[..|groups| - 1]);
      var topology := Topology(group, EMPTY_GROUP.(orgID := orgID));
      var members := MembersOf(group, orgID, group.users);
      GroupsPaired(orgID, groups[..|groups| - 1]);
      TopologyPaired(group, EMPTY_GROUP.(orgID := orgID));
      MembersNoLinks(group, orgID, group.users);
      NoLinksPaired(members);
      ConcatPaired(init, topology);
      ConcatPaired(init + topology, members);
    }
  }

  lemma EmptyNoLinks()
    ensures NoLinks([])
  {
  }

  lemma CreationPaired(group: Group, request: Group, creator: Option<Principal>)
    ensures Paired(CleanedSet(Creation(group, request, creator)))
  {
    hide Topology, OwnerEdge, OwnerOf, IsLink, Paired, CleanedSet, FirstNonEmpty, Trim;
    var owner := OwnerOf(creator);
    var groupID := QualifiedGroupID(group.orgID, FirstNonEmpty(group.id, request.id));
    var rest := if owner.Some? && groupID != "" then [OwnerEdge(groupID, owner.value)] else [];
    LinkEdges(groupID, groupID);
    NoLinksPaired(rest);
    TopologyPaired(group, request);
    ConcatPaired(Topology(group, request), rest);
  }

  lemma ProjectedPaired(orgID: string, groups: seq<Group>, users: seq<User>)
    ensures Paired(CleanedSet(Projected(orgID, groups, users)))
  {
    hide UsersProjection, GroupsProjection, PlatformEdge, IsLink, Paired, CleanedSet, Trim;
    LinkEdges(Trim(orgID), "");
    UsersNoLinks(orgID, users);
    var head := [PlatformZone(orgID)] + UsersProjection(orgID, users);
    NoLinksPaired(head);
    GroupsPaired(orgID, groups);
    ConcatPaired(head, GroupsProjection(orgID, groups));
  }

  lemma WrittenPaired(e: Event)
    requires IsWrite(e)
    ensures Paired(CleanedSet(Written(e)))
  {
    hide Topology, Creation, Projected, PlatformEdge, UserEdge, ZoneMemberEdge, IsLink, Paired, CleanedSet, Trim;
    match e
    case OrganizationCreated(orgID) =>
      LinkEdges(Trim(orgID), "");
      NoLinksPaired(Written(e));
    case GroupCreated(group, request, creator) => CreationPaired(group, request, creator);
    case GroupAttached(group, request) => TopologyPaired(group, request);
    case MemberAssigned(orgID, groupID, userID) =>
      LinkEdges(Trim(QualifiedGroupID(orgID, groupID)), Trim(userID));
      LinkEdges(Trim(orgID), Trim(userID));
      NoLinksPaired(Written(e));
    case Reconciled(orgID, groups, users) =>
      EmptyNoLinks();
      NoLinksPaired([]);
      ProjectedPaired(Trim(orgID), groups, users);
  }

  // ---------- deletes ----------

  /** The filters select an edge exactly when they select its mirror. */
  ghost predicate EvenHanded(fs: seq<Filter>) {
    forall g, p :: Hit(fs, ParentEdge(g, p)) <==> Hit(fs, ChildEdge(p, g))
  }

  lemma ConcatEvenHanded(a: seq<Filter>, b: seq<Filter>)
    requires EvenHanded(a) && EvenHanded(b)
    ensures EvenHanded(a + b)
  {
    hide ParentEdge, ChildEdge, Matches, Hit;
    forall g, p
      ensures Hit(a + b, ParentEdge(g, p)) <==> Hit(a + b, ChildEdge(p, g))
    {
      HitConcat(a, b, ParentEdge(g, p));
      HitConcat(a, b, ChildEdge(p, g));
    }
  }

  lemma HitConcat(a: seq<Filter>, b: seq<Filter>, r: Relationship)
    ensures Hit(a + b, r) <==> Hit(a, r) || Hit(b, r)
  {
    hide Matches;
    if Hit(a + b, r) {
      var f :| f in a + b && Matches(f, r);
      assert f in a || f in b;
    }
  }

  ghost predicate OffLinks(fs: seq<Filter>) {
    forall f :: f in fs ==>
        (f.subjectType != "" && f.subjectType != "group") || (f.resourceType != "" && f.resourceType != "group")
  }

  lemma OffLinksEvenHanded(fs: seq<Filter>)
    requires OffLinks(fs)
    ensures EvenHanded(fs)
  {
  }

  lemma TopologyFiltersEvenHanded(oldGroup: Group, request: Group)
    ensures EvenHanded(TopologyFilters(oldGroup, request))
  {
    hide FirstNonEmpty, Trim;
    var fs := TopologyFilters(oldGroup, request);
    if fs != [] {
      var gid := fs[0].resourceID;
      assert gid != "";
      forall g, p
        ensures Hit(fs, ParentEdge(g, p)) <==> g == gid
        ensures Hit(fs, ChildEdge(p, g)) <==> g == gid
      {
        RelationsDiffer();
        assert Matches(fs[1], ParentEdge(g, p)) <==> g == gid;
        assert Matches(fs[2], ChildEdge(p, g)) <==> g == gid;
      }
    }
  }

  lemma RelationsDiffer()
    ensures "zone" != "parent" && "zone" != "member" && "parent" != "member"
  {
    assert "zone"[0] == 'z' && "parent"[0] == 'p' && "member"[0] == 'm';
  }

  lemma GroupFiltersEvenHanded(orgID: string, groupID: string)
    ensures EvenHanded(GroupFilters(orgID, groupID))
  {
    hide Trim;
    var fs := GroupFilters(orgID, groupID);
    if fs != [] {
      var gid := fs[0].resourceID;
      assert gid != "";
      forall g, p
        ensures Hit(fs, ParentEdge(g, p)) <==> g == gid || p == gid
        ensures Hit(fs, ChildEdge(p, g)) <==> g == gid || p == gid
      {
        assert Matches(fs[0], ParentEdge(g, p)) <==> g == gid;
        assert Matches(fs[1], ParentEdge(g, p)) <==> p == gid;
        assert Matches(fs[0], ChildEdge(p, g)) <==> p == gid;
        assert Matches(fs[1], ChildEdge(p, g)) <==> g == gid;
      }
    }
  }

  lemma {:induction false} GroupsFiltersEvenHanded(orgID: string, groups: seq<Group>)
    ensures EvenHanded(GroupsFilters(orgID, groups))
  {
    hide GroupFilters, FirstNonEmpty, EvenHanded, OffLinks;
    if groups == [] {
      EmptyOffLinks();
      OffLinksEvenHanded([]);
    } else {
      var g := groups[|groups| - 1];
      GroupsFiltersEvenHanded(orgID, groups[..|groups| - 1]);
      GroupFiltersEvenHanded(orgID, FirstNonEmpty(g.id, g.name));
      ConcatEvenHanded(GroupsFilters(orgID, groups[..|groups| - 1]), GroupFilters(orgID, FirstNonEmpty(g.id, g.name)));
    }
  }

  lemma EmptyOffLinks()
    ensures OffLinks([])
  {
  }

  lemma DeletedByEvenHanded(e: Event)
    requires !IsWrite(e)
    ensures EvenHanded(DeletedBy(e))
  {
    hide TopologyFilters, GroupFilters, GroupsFilters, Trim, EvenHanded;
    match e
    case GroupDetached(oldGroup, request) => TopologyFiltersEvenHanded(oldGroup, request);
    case GroupDeleted(orgID, groupID) => GroupFiltersEvenHanded(orgID, groupID);
    case MemberRemoved(_, _, _, _) => OffLinksEvenHanded(DeletedBy(e));
    case UserPurged(_) => OffLinksEvenHanded(DeletedBy(e));
    case OrganizationDeleted(orgID, groups) =>
      OffLinksEvenHanded([]);
      OffLinksEvenHanded([ZoneFilter(Trim(orgID))]);
      GroupsFiltersEvenHanded(Trim(orgID), groups);
      ConcatEvenHanded([ZoneFilter(Trim(orgID))], GroupsFilters(Trim(orgID), groups));
  }

  /** Undoing a write deletes its tuples one by one; the wildcard on an empty
      subject relation reaches no link that was not written. */
  lemma NamingsEvenHanded(rels: seq<Relationship>)
    requires Paired(Elements(rels)) && forall r :: r in rels ==> !Zero(r)
    ensures EvenHanded(Namings(rels))
  {
    forall g, p
      ensures Hit(Namings(rels), ParentEdge(g, p)) <==> ParentEdge(g, p) in rels
    {
      NamingHits(rels, ParentEdge(g, p));
    }
    forall g, p
      ensures Hit(Namings(rels), ChildEdge(p, g)) <==> ChildEdge(p, g) in rels
    {
      NamingHits(rels, ChildEdge(p, g));
      assert BareChild(p, g) !in Elements(rels);
    }
    assert forall r :: r in rels <==> r in Elements(rels);
  }

  /** A write's undo reaches a tuple exactly when the tuple, or its variant
      without subject relation, was written. */
  lemma NamingHits(rels: seq<Relationship>, r: Relationship)
    requires forall x :: x in rels ==> !Zero(x)
    ensures Hit(Namings(rels), r) <==> r in rels || r.(subject := r.subject.(relation := "")) in rels
  {
    var bare := r.(subject := r.subject.(relation := ""));
    if Hit(Namings(rels), r) {
      var f :| f in Namings(rels) && Matches(f, r);
      var i :| 0 <= i < |rels| && f == Naming(rels[i]);
      assert !Zero(rels[i]);
      assert rels[i] == r || rels[i] == bare;
    }
    if r in rels {
      WrittenIsHit(rels, r, r);
    }
    if bare in rels {
      WrittenIsHit(rels, bare, r);
    }
  }

  lemma WrittenIsHit(rels: seq<Relationship>, x: Relationship, r: Relationship)
    requires x in rels && Matches(Naming(x), r)
    ensures Hit(Namings(rels), r)
  {
    var i :| 0 <= i < |rels| && rels[i] == x;
    assert Namings(rels)[i] == Naming(x);
  }

  // ---------- runs of fully applied events ----------

  /** An event applied in full, or a write event applied and then compensated. */
  datatype Applied = Done(event: Event) | Undone(event: Event)

  ghost predicate Legal(a: Applied) {
    (IsWrite(a.event) ==> CleanEvent(a.event)) && (a.Undone? ==> IsWrite(a.event))
  }

  ghost function PlanOfApplied(a: Applied): Plan {
    if a.Done? then EventPlan(a.event, []) else UndoPlan(a.event, [])
  }

  ghost function AfterAll(s: Store, events: seq<Applied>): Store {
    if events == [] then s
    else Full(AfterAll(s, events[..|events| - 1]), PlanOfApplied(events[|events| - 1]))
  }

  lemma AddKeepsMirrored(s: Store, rels: seq<Relationship>)
    requires Mirrored(s) && Mirrored(Elements(rels))
    ensures Mirrored(s + Elements(rels))
  {
    hide ParentEdge, ChildEdge;
  }

  lemma RemoveKeepsMirrored(s: Store, fs: seq<Filter>)
    requires Mirrored(s) && EvenHanded(fs)
    ensures Mirrored(Remaining(s, fs))
  {
    hide ParentEdge, ChildEdge, Hit;
  }

  lemma AppliedKeepsMirrored(s: Store, a: Applied)
    requires Mirrored(s) && Legal(a)
    ensures Mirrored(Full(s, PlanOfApplied(a)))
  {
    hide EventPlan, UndoPlan, Mirrored, EvenHanded, IsWrite, Written, DeletedBy, CleanedSet, Elements, Remaining, Zero;
    var e := a.event;
    if IsWrite(e) {
      WriteEventPlan(e);
      WrittenPaired(e);
      var rels := EventPlan(e, []).rels;
      if a.Done? {
        AddKeepsMirrored(s, rels);
      } else {
        EventTuplesTidy(e);
        NamingsEvenHanded(rels);
        RemoveKeepsMirrored(s, Namings(rels));
        FullRemove(s, Namings(rels));
      }
    } else {
      DeleteEventPlan(e, []);
      DeletedByEvenHanded(e);
      RemoveKeepsMirrored(s, DeletedBy(e));
      FullRemove(s, DeletedBy(e));
    }
  }

  lemma EventTuplesTidy(e: Event)
    requires EventPlan(e, []).Add?
    ensures forall r :: r in EventPlan(e, []).rels ==> !Zero(r)
  {
    hide Normalize, PayloadOf, Zero;
    NormalizedAreTidy(Normalize(PayloadOf(e, [])));
  }

  lemma {:induction false} EveryStoreIsMirrored(s: Store, events: seq<Applied>)
    requires Mirrored(s)
    requires forall i :: 0 <= i < |events| ==> Legal(events[i])
    ensures Mirrored(AfterAll(s, events))
    decreases |events|
  {
    hide Mirrored, Legal, PlanOfApplied, Full;
    if events != [] {
      EveryStoreIsMirrored(s, events[..|events| - 1]);
      AppliedKeepsMirrored(AfterAll(s, events[..|events| - 1]), events[|events| - 1]);
    }
  }
}
