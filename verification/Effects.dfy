/** What a directory operation does to the tuple store, tuple by tuple: who owns
    a new group, how it is placed, what an organization takes with it, and what a
    rolled back removal gives back. */
module Effects {
  import opened Text
  import opened Relationships
  import opened Projection
  import opened Dispatcher
  import opened Directory
  import opened EventPlans
  import opened Rollback
  import opened Agreement
  import opened Operations

  function Tuple(typ: string, id: string, relation: string, subject: SubjectRef): Relationship {
    Relationship(ObjectRef(typ, id), relation, subject)
  }

  /** The first of the two that is not blank, without surrounding white space. */
  function Preferred(own: string, requested: string): string {
    if !Blank(own) then Trim(own) else Trim(requested)
  }

  // ---------- the owner of a new group ----------

  /** The creator is signed in under a visible id, and this is the subject. */
  predicate Owns(creator: Option<Principal>, x: SubjectRef) {
    && creator.Some? && creator.value.authenticated && !Blank(creator.value.subjectID)
    && x.id == Trim(creator.value.subjectID) && x.relation == ""
    && x.typ == (if creator.value.subjectType in {"service", "service_account"} then creator.value.subjectType
        else "user")
  }

  lemma OwnerIsNoTopology(group: Group, request: Group, g: string, x: SubjectRef)
    ensures Tuple("group", g, "owner", x) !in CleanedSet(Topology(group, request))
  {
    hide Trim, FirstNonEmpty, Zero;
    assert "owner"[0] == 'o' && "parent"[0] == 'p' && "member"[0] == 'm' && "zone"[0] == 'z';
  }

  lemma OneCleaned(r: Relationship, x: Relationship)
    ensures x in CleanedSet([r]) <==> !Zero(r) && x == Cleaned(r)
  {
    hide Zero, Cleaned;
    assert r in [r];
  }

  lemma OwnerWritten(creator: Option<Principal>, group: string, g: string, x: SubjectRef)
    requires group != "" && Trimmed(group)
    ensures Tuple("group", g, "owner", x) in CleanedSet(match OwnerOf(creator)
        case None => []
        case Some(o) => [OwnerEdge(group, o)])
      <==> g == group && Owns(creator, x)
  {
    hide Trim;
    match OwnerOf(creator) {
      case None =>
      case Some(o) =>
        OneCleaned(OwnerEdge(group, o), Tuple("group", g, "owner", x));
        assert !Blank(o.typ) by { assert o.typ[0] in {'s', 'u'} && !IsSpace('s') && !IsSpace('u'); }
        assert !Blank("group") && !Blank("owner") by { assert !IsSpace("group"[0]) && !IsSpace("owner"[0]); }
        assert Zero(OwnerEdge(group, o)) <==> Blank(o.id);
    }
  }

  lemma CreationWrites(group: Group, request: Group, creator: Option<Principal>, r: Relationship)
    ensures var id := Preferred(group.id, request.id);
      r in CleanedSet(Creation(group, request, creator)) <==>
        || r in CleanedSet(Topology(group, request))
        || (id != "" && r in CleanedSet(match OwnerOf(creator)
              case None => []
              case Some(o) => [OwnerEdge(id, o)]))
  {
    hide CleanedSet, Topology, OwnerOf, OwnerEdge, Trim;
    var id := Preferred(group.id, request.id);
    assert CleanedSet([]) == {} by { NoneCleaned(); }
    var own := if OwnerOf(creator).Some? && id != "" then [OwnerEdge(id, OwnerOf(creator).value)] else [];
    assert Creation(group, request, creator) == Topology(group, request) + own;
    CleanedSetConcat(Topology(group, request), own);
  }

  lemma NoneCleaned()
    ensures CleanedSet([]) == {}
  {
  }

  /** A new group is owned by its creator, if signed in, and by nobody else; no
      other group gets or loses an owner. */
  lemma OwnerAfterCreation(s: Store, group: Group, request: Group, creator: Option<Principal>, g: string,
      x: SubjectRef)
    requires CleanEvent(GroupCreated(group, request, creator))
    ensures var id := Preferred(group.id, request.id);
      Tuple("group", g, "owner", x) in Apply(s, GroupCreated(group, request, creator)) <==>
        Tuple("group", g, "owner", x) in s || (id != "" && g == id && Owns(creator, x))
  {
    hide Apply, CleanedSet, CleanEvent, Topology, Owns, OwnerOf, OwnerEdge, Trim;
    var r, id := Tuple("group", g, "owner", x), Preferred(group.id, request.id);
    WriteApplied(s, GroupCreated(group, request, creator), r);
    CreationWrites(group, request, creator, r);
    OwnerIsNoTopology(group, request, g, x);
    if id != "" { OwnerWritten(creator, id, g, x); }
  }

  /** So after CreateGroup has reported success in direct mode. */
  lemma OwnerAfterCreate(env: Env, w: World, dir: Registry, op: Op, captured: seq<Relationship>, g: string,
      x: SubjectRef)
    requires !env.dtm && op.CreateGroup? && Accepted(dir, op) && Operate(env, w, dir, op, captured).1
    ensures Tuple("group", g, "owner", x) in Operate(env, w, dir, op, captured).0.tuples <==>
      Tuple("group", g, "owner", x) in w.tuples || (g == op.id && Owns(op.creator, x))
  {
    hide Operate, Apply, Owns, Trim;
    OperateDone(env, w, dir, op, captured);
    var group := AsGroup(op.id, DirectoryAfter(dir, op)[op.id]);
    OneEvent(w.tuples, GroupCreated(group, group, op.creator));
    OwnerAfterCreation(w.tuples, group, group, op.creator, g, x);
  }

  // ---------- where a group is placed ----------

  /** The tuples that place a group: its zone, and its parent unless that is the
      group itself or its organization. */
  predicate Places(org: string, id: string, parent: string, r: Relationship) {
    && id != ""
    && (|| (org != "" && r == Tuple("group", id, "zone", SubjectRef("zone", org, "")))
        || (parent != "" && parent != id && parent != org
            && r in {Tuple("group", id, "parent", SubjectRef("group", parent, "")),
                     Tuple("group", parent, "member", SubjectRef("group", id, "member"))}))
  }

  lemma TopologyPlaces(group: Group, request: Group, r: Relationship)
    ensures r in Topology(group, request) <==>
      Places(Preferred(group.orgID, request.orgID), Preferred(group.id, request.id),
             Preferred(group.parentID, request.parentID), r)
  {
    hide Trim;
  }

  lemma PlacesVisible(org: string, id: string, parent: string, r: Relationship)
    requires Trimmed(org) && Trimmed(id) && Trimmed(parent) && Places(org, id, parent, r)
    ensures !Zero(r) && Cleaned(r) == r
  {
    hide Trim;
    assert !Blank("group") && !Blank("zone") && !Blank("parent") && !Blank("member") by {
      assert !IsSpace("group"[0]) && !IsSpace("zone"[0]) && !IsSpace("parent"[0]) && !IsSpace("member"[0]);
    }
    TrimmedIsCleaned(r);
  }

  /** The provider's answer decides, and the request where the answer is blank. */
  lemma PlacedAfterAttach(s: Store, group: Group, request: Group, r: Relationship)
    requires CleanEvent(GroupAttached(group, request))
    ensures r in Apply(s, GroupAttached(group, request)) <==>
      r in s || Places(Preferred(group.orgID, request.orgID), Preferred(group.id, request.id),
                       Preferred(group.parentID, request.parentID), r)
  {
    hide Apply, CleanEvent, Places, Topology, Preferred, Trim, Zero, Cleaned;
    WriteApplied(s, GroupAttached(group, request), r);
    TopologyCleanedIs(group, request);
    TopologyPlaces(group, request, r);
  }

  lemma TopologyCleanedIs(group: Group, request: Group)
    ensures CleanedSet(Topology(group, request)) == Elements(Topology(group, request))
  {
    hide Trim, Zero, Cleaned, Topology, Places;
    forall r | r in Topology(group, request)
      ensures !Zero(r) && Cleaned(r) == r
    {
      TopologyPlaces(group, request, r);
      PlacesVisible(Preferred(group.orgID, request.orgID), Preferred(group.id, request.id),
                    Preferred(group.parentID, request.parentID), r);
    }
  }

  /** Creating a group places it in the same way; its owner apart, it adds nothing else. */
  lemma PlacedAfterCreation(s: Store, group: Group, request: Group, creator: Option<Principal>, r: Relationship)
    requires CleanEvent(GroupCreated(group, request, creator)) && r.relation != "owner"
    ensures r in Apply(s, GroupCreated(group, request, creator)) <==>
      r in s || Places(Preferred(group.orgID, request.orgID), Preferred(group.id, request.id),
                       Preferred(group.parentID, request.parentID), r)
  {
    hide Apply, CleanEvent, Places, Topology, OwnerOf, Preferred, Trim, Zero;
    WriteApplied(s, GroupCreated(group, request, creator), r);
    CreationWrites(group, request, creator, r);
    TopologyCleanedIs(group, request);
    TopologyPlaces(group, request, r);
  }

  // ---------- organizations ----------

  /** A new organization's zone is linked to the platform, and nothing else happens. */
  lemma LinkedAfterCreation(s: Store, orgID: string)
    requires CleanID(orgID)
    ensures Apply(s, OrganizationCreated(orgID)) == s + (if Blank(orgID) then {}
        else {Tuple("zone", Trim(orgID), "platform", SubjectRef("platform", "global", ""))})
  {
    hide Apply, CleanedSet, Trim;
    var link := Tuple("zone", Trim(orgID), "platform", SubjectRef("platform", "global", ""));
    assert Zero(link) <==> Blank(orgID) by {
      assert !IsSpace("zone"[0]) && !IsSpace("platform"[0]) && !IsSpace("global"[0]);
    }
    TrimmedIsCleaned(link);
    forall r
      ensures r in Apply(s, OrganizationCreated(orgID)) <==> r in s || (!Blank(orgID) && r == link)
    {
      WriteApplied(s, OrganizationCreated(orgID), r);
      OneCleaned(link, r);
    }
  }

  /** The tuples an organization takes with it: those on its zone, and those on
      or about one of its listed groups. */
  predicate TakenAlong(org: string, groups: seq<Group>, r: Relationship) {
    || (r.resource.typ == "zone" && r.resource.id == org)
    || AboutSome(groups, r)
  }

  predicate AboutSome(groups: seq<Group>, r: Relationship) {
    exists g :: g in groups && AboutGroup(g, r)
  }

  predicate AboutGroup(g: Group, r: Relationship) {
    Preferred(g.id, g.name) != "" && About(Preferred(g.id, g.name), r)
  }

  predicate About(id: string, r: Relationship) {
    r.resource == ObjectRef("group", id) || (r.subject.typ == "group" && r.subject.id == id)
  }

  lemma GroupFiltersHit(orgID: string, groupID: string, r: Relationship)
    ensures Hit(GroupFilters(orgID, groupID), r) <==> Trim(groupID) != "" && About(Trim(groupID), r)
  {
    hide Trim;
    var fs, gid := GroupFilters(orgID, groupID), Trim(groupID);
    if gid != "" {
      assert fs == [fs[0], fs[1], fs[2]];
      assert Matches(fs[0], r) <==> r.resource == ObjectRef("group", gid);
      assert Matches(fs[1], r) <==> r.subject.typ == "group" && r.subject.id == gid;
    }
  }

  lemma AboutSomeStep(groups: seq<Group>, r: Relationship)
    requires groups != []
    ensures var n := |groups| - 1;
      AboutSome(groups, r) <==> AboutSome(groups[..n], r) || AboutGroup(groups[n], r)
  {
    hide AboutGroup;
    assert groups == groups[..|groups| - 1] + [groups[|groups| - 1]];
  }

  lemma {:induction false} GroupsFiltersHit(orgID: string, groups: seq<Group>, r: Relationship)
    ensures Hit(GroupsFilters(orgID, groups), r) <==> AboutSome(groups, r)
  {
    hide Hit, GroupFilters, About, Trim;
    if groups == [] {
      NothingSelected(r);
    } else {
      var n := |groups| - 1;
      var id := FirstNonEmpty(groups[n].id, groups[n].name);
      GroupsFiltersHit(orgID, groups[..n], r);
      GroupFiltersHit(orgID, id, r);
      HitConcat(GroupsFilters(orgID, groups[..n]), GroupFilters(orgID, id), r);
      assert id == Preferred(groups[n].id, groups[n].name) == Trim(id);
      AboutSomeStep(groups, r);
    }
  }

  lemma HitConcat(a: seq<Filter>, b: seq<Filter>, r: Relationship)
    ensures Hit(a + b, r) <==> Hit(a, r) || Hit(b, r)
  {
    hide Matches;
  }

  lemma GoneAfterDelete(s: Store, orgID: string, groups: seq<Group>)
    ensures Apply(s, OrganizationDeleted(orgID, groups))
         == if Blank(orgID) then s else set r | r in s && !TakenAlong(Trim(orgID), groups, r)
  {
    hide Apply, Hit, GroupsFilters, ZoneFilter, AboutSome, Trim;
    var e, org := OrganizationDeleted(orgID, groups), Trim(orgID);
    forall r
      ensures r in Apply(s, e) <==> r in s && (Blank(orgID) || !TakenAlong(org, groups, r))
    {
      DeleteApplied(s, e, r);
      if Blank(orgID) {
        NothingSelected(r);
      } else {
        ZoneFilterHit(org, r);
        GroupsFiltersHit(org, groups, r);
        HitConcat([ZoneFilter(org)], GroupsFilters(org, groups), r);
      }
    }
  }

  lemma NothingSelected(r: Relationship)
    ensures !Hit([], r)
  {
  }

  lemma ZoneFilterHit(org: string, r: Relationship)
    requires org != ""
    ensures Hit([ZoneFilter(org)], r) <==> r.resource.typ == "zone" && r.resource.id == org
  {
    assert ZoneFilter(org) in [ZoneFilter(org)];
  }

  // ---------- a removal rolled back ----------

  function GroupMembership(group: string, user: string): Relationship {
    Tuple("group", Trim(group), "member", SubjectRef("user", Trim(user), ""))
  }

  function ZoneMembership(org: string, user: string): Relationship {
    Tuple("zone", Trim(org), "member", SubjectRef("user", Trim(user), ""))
  }

  predicate IsMember(typ: string, user: string, r: Relationship) {
    r.resource.typ == typ && r.relation == "member" && r.subject.typ == "user" && r.subject.id == Trim(user)
  }

  /** What the first k deletes of a removal take, whatever the subject relation:
      the membership of the group, then of the zone, or of all if none is named. */
  predicate Erased(org: string, group: string, user: string, k: nat, r: Relationship) {
    || (k >= 1 && IsMember("group", user, r) && r.resource.id == Trim(group))
    || (k >= 2 && IsMember("zone", user, r) && (Blank(org) || r.resource.id == Trim(org)))
  }

  /** What the compensation of a removal writes. */
  function GivenBack(org: string, group: string, user: string, last: bool): Store {
    {GroupMembership(group, user)} + (if last && !Blank(org) then {ZoneMembership(org, user)} else {})
  }

  lemma RemovalUndo(org: string, group: string, user: string, last: bool)
    requires !Blank(group) && !Blank(user) && CleanEvent(MemberRemoved(org, group, user, last))
    ensures var undo := UndoPlan(MemberRemoved(org, group, user, last), []);
      undo.Add? && Elements(undo.rels) == GivenBack(org, group, user, last)
  {
    hide Normalize, Elements, PlainFilter, Trim, Separable, CleanedSet, Zero, GivenBack;
    var e := MemberRemoved(org, group, user, last);
    var p := PayloadOf(e, []);
    DeleteShape(e, []);
    DeletedByPlain(e);
    RemovalRelationships(org, group, user, last);
    NormalizeKeeps(p.operation, p.relationships, p.filters);
    PlainNotBlank(p.filters);
    NormalizeIdempotent(p);
    DeleteOperation(p);
  }

  lemma RemovalRelationships(org: string, group: string, user: string, last: bool)
    requires !Blank(group) && !Blank(user) && CleanID(org) && CleanID(group) && CleanID(user)
    ensures var rels := Removal(org, group, user, last).relationships;
      && (forall r :: r in rels ==> Separable(r))
      && CleanedSet(rels) == GivenBack(org, group, user, last)
  {
    hide Trim, CleanedSet, Separable, CleanID;
    var member, zone := GroupMembership(group, user), ZoneMembership(org, user);
    MembershipsPlain(org, group, user);
    var rels := Removal(org, group, user, last).relationships;
    assert rels == [member] + (if last then [zone] else []);
    CleanedSetConcat([member], if last then [zone] else []);
    forall x
      ensures x in CleanedSet([member]) <==> x == member
      ensures x in CleanedSet([zone]) <==> !Blank(org) && x == zone
    {
      OneCleaned(member, x);
      OneCleaned(zone, x);
    }
    NoneCleaned();
  }

  lemma MembershipsPlain(org: string, group: string, user: string)
    requires !Blank(group) && !Blank(user) && CleanID(org) && CleanID(group) && CleanID(user)
    ensures var member, zone := GroupMembership(group, user), ZoneMembership(org, user);
      && Separable(member) && Separable(zone) && Cleaned(member) == member && Cleaned(zone) == zone
      && !Zero(member) && (Zero(zone) <==> Blank(org))
  {
    hide Trim;
    TrimmedIsCleaned(GroupMembership(group, user));
    TrimmedIsCleaned(ZoneMembership(org, user));
    assert !IsSpace("group"[0]) && !IsSpace("zone"[0]) && !IsSpace("member"[0]) && !IsSpace("user"[0]);
  }

  lemma RemovalErases(org: string, group: string, user: string, last: bool, k: nat, r: Relationship)
    requires !Blank(group) && !Blank(user) && k <= |DeletedBy(MemberRemoved(org, group, user, last))|
    ensures |DeletedBy(MemberRemoved(org, group, user, last))| == (if last then 2 else 1)
    ensures Hit(DeletedBy(MemberRemoved(org, group, user, last))[..k], r) <==> Erased(org, group, user, k, r)
  {
    hide Trim;
    var fs := DeletedBy(MemberRemoved(org, group, user, last));
    assert fs[..0] == [] && fs[..1] == [fs[0]] && (last ==> fs[..2] == [fs[0], fs[1]]);
    assert Matches(fs[0], r) <==> IsMember("group", user, r) && r.resource.id == Trim(group);
    assert last ==>
        (Matches(fs[1], r) <==> IsMember("zone", user, r) && (Blank(org) || r.resource.id == Trim(org)));
  }

  /** RemoveUserFromGroup compensated after any of its deletes: exactly what the
      deletes took is gone, and both memberships are there, whether or not they
      were before. */
  lemma RemovalRollback(s: Store, org: string, group: string, user: string, last: bool, k: nat)
    requires !Blank(group) && !Blank(user) && CleanEvent(MemberRemoved(org, group, user, last))
    requires k <= if last then 2 else 1
    ensures var e := MemberRemoved(org, group, user, last);
      && Steps(EventPlan(e, [])) == (if last then 2 else 1)
      && RolledBack(s, e, [], k)
         == (set r | r in s && !Erased(org, group, user, k, r)) + GivenBack(org, group, user, last)
  {
    hide EventPlan, UndoPlan, DeletedBy, Hit, Erased, GivenBack, CleanEvent;
    var e := MemberRemoved(org, group, user, last);
    RemovalErases(org, group, user, last, 0, GroupMembership(group, user));
    DeleteEventPlan(e, []);
    RemovalUndo(org, group, user, last);
    forall r
      ensures Hit(DeletedBy(e)[..k], r) <==> Erased(org, group, user, k, r)
    {
      RemovalErases(org, group, user, last, k, r);
    }
  }

  /** That restores the store exactly when the membership of the group, and with
      the last group that of the zone, had been stored, and the deletes took
      nothing with a subject relation and nothing of an unnamed zone. */
  lemma RemovalRollbackExactIff(s: Store, org: string, group: string, user: string, last: bool, k: nat)
    requires !Blank(group) && !Blank(user) && CleanEvent(MemberRemoved(org, group, user, last))
    requires k <= if last then 2 else 1
    ensures var e := MemberRemoved(org, group, user, last);
      && k <= Steps(EventPlan(e, []))
      && (RolledBack(s, e, [], k) == s <==>
            && GroupMembership(group, user) in s
            && (last && !Blank(org) ==> ZoneMembership(org, user) in s)
            && (forall r :: r in s && Erased(org, group, user, k, r) ==>
                  r.subject.relation == "" && (r.resource.typ == "zone" ==> !Blank(org))))
      && GroupMembership(group, user) in RolledBack(s, e, [], k)
      && (last && !Blank(org) ==> ZoneMembership(org, user) in RolledBack(s, e, [], k))
  {
    hide RolledBack, EventPlan, CleanEvent, Erased, GroupMembership, ZoneMembership;
    RemovalRollback(s, org, group, user, last, k);
    var back := GivenBack(org, group, user, last);
    forall r | Erased(org, group, user, k, r)
      ensures r in back <==> r.subject.relation == "" && (r.resource.typ == "zone" ==> !Blank(org))
    {
      ErasedGivenBack(org, group, user, last, k, r);
    }
    var t := RolledBack(s, MemberRemoved(org, group, user, last), [], k);
    assert t == s <==> back <= s && forall r :: r in s && Erased(org, group, user, k, r) ==> r in back by {
      var gone := set r | r in s && Erased(org, group, user, k, r);
      UnionRestoresIff(s, gone, back);
      assert (set r | r in s && !Erased(org, group, user, k, r)) == s - gone;
    }
  }

  lemma UnionRestoresIff(s: Store, gone: Store, back: Store)
    requires gone <= s
    ensures (s - gone) + back == s <==> back <= s && gone <= back
  {
  }

  lemma ErasedGivenBack(org: string, group: string, user: string, last: bool, k: nat, r: Relationship)
    requires Erased(org, group, user, k, r) && k <= (if last then 2 else 1)
    ensures r in GivenBack(org, group, user, last)
      <==> r.subject.relation == "" && (r.resource.typ == "zone" ==> !Blank(org))
  {
    hide Trim;
    assert "zone" != "group" by { assert |"zone"| != |"group"|; }
  }

  // ---------- a reconcile ----------

  predicate IsPlatformLink(r: Relationship) {
    r.relation == "platform"
  }

  lemma EdgesAreNoLinks(a: string, b: string)
    ensures !IsPlatformLink(ZoneEdge(a, b)) && !IsPlatformLink(ParentEdge(a, b)) && !IsPlatformLink(ChildEdge(a, b))
    ensures !IsPlatformLink(UserEdge(a, b)) && !IsPlatformLink(ZoneMemberEdge(a, b))
  {
    assert "platform"[1] == 'l' && "parent"[1] == 'a' && "member"[1] == 'e' && "zone"[1] == 'o';
  }

  lemma {:induction false} MembershipsAreNoLinks(groups: seq<string>, org: string, userID: string)
    ensures forall r :: r in MembershipsOf(groups, org, userID) ==> !IsPlatformLink(r)
  {
    hide IsPlatformLink, UserEdge, Trim;
    if groups != [] {
      MembershipsAreNoLinks(groups[..|groups| - 1], org, userID);
      EdgesAreNoLinks(Trim(Trim(groups[|groups| - 1])), Trim(userID));
    }
  }

  lemma {:induction false} MembersAreNoLinks(group: Group, org: string, users: seq<string>)
    ensures forall r :: r in MembersOf(group, org, users) ==> !IsPlatformLink(r)
  {
    hide IsPlatformLink, UserEdge, FirstNonEmpty, Trim;
    if users != [] {
      MembersAreNoLinks(group, org, users[..|users| - 1]);
      EdgesAreNoLinks(Trim(Trim(group.id)), Trim(users[|users| - 1]));
    }
  }

  lemma {:induction false} UsersAreNoLinks(org: string, users: seq<User>)
    ensures forall r :: r in UsersProjection(org, users) ==> !IsPlatformLink(r)
  {
    hide IsPlatformLink, ZoneMemberEdge, MembershipsOf, Trim;
    if users != [] {
      var x := users[|users| - 1];
      UsersAreNoLinks(org, users[..|users| - 1]);
      EdgesAreNoLinks(org, Trim(x.id));
      MembershipsAreNoLinks(x.groups, org, x.id);
    }
  }

  lemma TopologyHasNoLink(group: Group, request: Group)
    ensures forall r :: r in Topology(group, request) ==> !IsPlatformLink(r)
  {
    hide IsPlatformLink, ZoneEdge, ParentEdge, ChildEdge, FirstNonEmpty, Trim;
    forall a, b
      ensures !IsPlatformLink(ZoneEdge(a, b)) && !IsPlatformLink(ParentEdge(a, b)) && !IsPlatformLink(ChildEdge(a, b))
    {
      EdgesAreNoLinks(a, b);
    }
  }

  lemma {:induction false} GroupsAreNoLinks(org: string, groups: seq<Group>)
    ensures forall r :: r in GroupsProjection(org, groups) ==> !IsPlatformLink(r)
  {
    hide IsPlatformLink, Topology, MembersOf;
    if groups != [] {
      var x := groups[|groups| - 1];
      GroupsAreNoLinks(org, groups[..|groups| - 1]);
      TopologyHasNoLink(x, EMPTY_GROUP.(orgID := org));
      MembersAreNoLinks(x, org, x.users);
    }
  }

  /** A reconcile links the organization's zone to the platform, and no other. */
  lemma LinkedAfterReconcile(s: Store, orgID: string, groups: seq<Group>, users: seq<User>, r: Relationship)
    requires CleanEvent(Reconciled(orgID, groups, users)) && IsPlatformLink(r)
    ensures r in Apply(s, Reconciled(orgID, groups, users)) <==>
      r in s || (!Blank(orgID) && r == Tuple("zone", Trim(orgID), "platform", SubjectRef("platform", "global", "")))
  {
    hide Apply, CleanEvent, CleanedSet, UsersProjection, GroupsProjection, IsPlatformLink, Zero, Trim;
    var e, org := Reconciled(orgID, groups, users), Trim(orgID);
    WriteApplied(s, e, r);
    if Blank(orgID) {
      NoneCleaned();
    } else {
      var link := Tuple("zone", org, "platform", SubjectRef("platform", "global", ""));
      var rest := UsersProjection(org, users) + GroupsProjection(org, groups);
      assert Written(e) == [link] + rest;
      CleanedSetConcat([link], rest);
      OneCleaned(link, r);
      assert !Zero(link) by { LinkVisible(org); }
      TrimmedIsCleaned(link);
      UsersAreNoLinks(org, users);
      GroupsAreNoLinks(org, groups);
      NoLinkCleaned(rest, r);
    }
  }

  lemma LinkVisible(org: string)
    requires !Blank(org)
    ensures !Zero(Tuple("zone", org, "platform", SubjectRef("platform", "global", "")))
  {
    assert !IsSpace("zone"[0]) && !IsSpace("platform"[0]) && !IsSpace("global"[0]);
  }

  lemma NoLinkCleaned(rels: seq<Relationship>, r: Relationship)
    requires IsPlatformLink(r) && forall x :: x in rels ==> !IsPlatformLink(x)
    ensures r !in CleanedSet(rels)
  {
    hide Zero, Trim;
  }

  // ---------- events about nobody ----------

  /** Without a group or a user there is nothing to remove, and nothing is dispatched. */
  lemma BlankRemovalIsIgnored(env: Env, w: World, org: string, group: string, user: string, last: bool)
    requires Blank(group) || Blank(user)
    ensures Dispatch(env, w, PayloadOf(MemberRemoved(org, group, user, last), [])) == (w, true)
  {
    hide Trim;
    var p := PayloadOf(MemberRemoved(org, group, user, last), []);
    assert p.relationships == [] && p.filters == [];
    assert Dedupe(CleanRelationships(p.relationships)) == [];
  }
}
