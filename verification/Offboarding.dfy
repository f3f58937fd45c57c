/** A user who leaves: what a removal without an organization takes away, and
    when a disabled user is back after the next reconcile. */
module Offboarding {
  import opened Text
  import opened Relationships
  import opened Projection
  import opened Directory
  import opened EventPlans
  import opened Membership
  import opened Agreement
  import opened Drift

  // ---------- RemoveUserFromGroup ----------

  predicate IsMembership(typ: string, user: string, r: Relationship) {
    r.resource.typ == typ && r.relation == "member" && r.subject.typ == "user" && r.subject.id == user
  }

  /** The zone filter names no zone when the organization is blank. */
  lemma RemovalHits(org: string, group: string, user: string, last: bool, r: Relationship)
    requires !Blank(group) && !Blank(user)
    ensures Hit(Removal(org, group, user, last).filters, r) <==>
      || (IsMembership("group", Trim(user), r) && r.resource.id == Trim(group))
      || (last && IsMembership("zone", Trim(user), r) && (Blank(org) || r.resource.id == Trim(org)))
  {
    hide Trim;
    var fs := Removal(org, group, user, last).filters;
    var member, zone := MemberFilter(Trim(group), Trim(user)), ZoneMemberFilter(Trim(org), Trim(user));
    assert fs == [member] + (if last then [zone] else []);
    assert fs[0] == member && (last ==> fs[1] == zone);
    assert Matches(member, r) <==> IsMembership("group", Trim(user), r) && r.resource.id == Trim(group);
    assert Matches(zone, r) <==> IsMembership("zone", Trim(user), r) && (Blank(org) || r.resource.id == Trim(org));
  }

  /** The removal takes no tuple of another zone. */
  ghost predicate ZoneLocal(org: string, group: string, user: string, last: bool) {
    forall s, r :: r in s && r !in Apply(s, MemberRemoved(org, group, user, last)) && r.resource.typ == "zone"
                   ==> r.resource.id == Trim(org)
  }

  /** A removal is local to its zone exactly when it names an organization, or
      leaves the zones alone: without one it takes the user out of every zone. */
  lemma ZoneLocalIff(org: string, group: string, user: string, last: bool)
    ensures ZoneLocal(org, group, user, last) <==> !last || !Blank(org) || Blank(group) || Blank(user)
  {
    hide Apply, Trim, Blank, Hit;
    var e := MemberRemoved(org, group, user, last);
    if last && Blank(org) && !Blank(group) && !Blank(user) {
      var r := ZoneMemberEdge("z", Trim(user));
      assert r.resource.id == "z" && "z" != Trim(org) by { assert Trim(org) == ""; }
      RemovalHits(org, group, user, last, r);
      DeleteApplied({r}, e, r);
      assert !ZoneLocal(org, group, user, last);
    } else {
      forall s, r | r in s && r !in Apply(s, e) && r.resource.typ == "zone"
        ensures r.resource.id == Trim(org)
      {
        DeleteApplied(s, e, r);
        RemovedInZone(org, group, user, last, r);
      }
    }
  }

  lemma RemovedInZone(org: string, group: string, user: string, last: bool, r: Relationship)
    requires !last || !Blank(org) || Blank(group) || Blank(user)
    requires Hit(DeletedBy(MemberRemoved(org, group, user, last)), r) && r.resource.typ == "zone"
    ensures r.resource.id == Trim(org)
  {
    hide Trim;
    assert "zone" != "group" by { assert |"zone"| != |"group"|; }
    if !Blank(group) && !Blank(user) {
      RemovalHits(org, group, user, last, r);
    }
  }

  // ---------- DisableUser, then Reconcile ----------

  /** The directory's answer still names the user as a member of the group, in
      the user's groups or in the group's users. */
  ghost predicate ListedMember(groups: seq<Group>, users: seq<User>, group: string, user: string) {
    || (exists x, h :: x in users && h in x.groups && Trim(x.id) == user && Trim(h) == group)
    || (exists x, m :: x in groups && m in x.users && Trim(x.id) == group && Trim(m) == user)
  }

  lemma {:induction false} MembershipsWritten(groups: seq<string>, org: string, userID: string, g: string, u: string)
    ensures UserEdge(g, u) in MembershipsOf(groups, org, userID)
      <==> Trim(userID) == u && exists h :: h in groups && Trim(h) == g
  {
    hide Trim;
    if groups != [] {
      var n := |groups| - 1;
      MembershipsWritten(groups[..n], org, userID, g, u);
      assert groups == groups[..n] + [groups[n]];
    }
  }

  lemma {:induction false} MembersWritten(group: Group, org: string, users: seq<string>, g: string, u: string)
    ensures UserEdge(g, u) in MembersOf(group, org, users)
      <==> Trim(group.id) == g && exists m :: m in users && Trim(m) == u
  {
    hide Trim, FirstNonEmpty;
    if users != [] {
      var n := |users| - 1;
      MembersWritten(group, org, users[..n], g, u);
      assert users == users[..n] + [users[n]];
      TrimTwice(group.id);
    }
  }

  lemma TrimTwice(s: string)
    ensures Trim(Trim(s)) == Trim(s)
  {
  }

  lemma EdgesDiffer(a: string, b: string, g: string, u: string)
    ensures UserEdge(g, u) != ZoneMemberEdge(a, b) && UserEdge(g, u) != ZoneEdge(a, b)
        && UserEdge(g, u) != PlatformEdge(a)
    ensures UserEdge(g, u) != ParentEdge(a, b) && UserEdge(g, u) != ChildEdge(a, b)
    ensures ZoneMemberEdge(g, u) != ZoneEdge(a, b) && ZoneMemberEdge(g, u) != PlatformEdge(a)
    ensures ZoneMemberEdge(g, u) != ParentEdge(a, b) && ZoneMemberEdge(g, u) != ChildEdge(a, b)
    ensures ZoneMemberEdge(g, u) == ZoneMemberEdge(a, b) <==> g == a && u == b
  {
    assert "user"[0] == 'u' && "zone"[0] == 'z' && "group"[0] == 'g' && "platform"[0] == 'p';
  }

  lemma {:induction false} UsersWritten(org: string, users: seq<User>, g: string, u: string)
    requires u != ""
    ensures UserEdge(g, u) in UsersProjection(org, users)
      <==> exists x, h :: x in users && h in x.groups && Trim(x.id) == u && Trim(h) == g
    ensures ZoneMemberEdge(org, u) in UsersProjection(org, users) <==> exists x :: x in users && Trim(x.id) == u
  {
    hide UserEdge, ZoneMemberEdge, MembershipsOf, Trim;
    if users != [] {
      var n := |users| - 1;
      var x := users[n];
      UsersWritten(org, users[..n], g, u);
      MembershipsWritten(x.groups, org, x.id, g, u);
      EdgesDiffer(org, Trim(x.id), g, u);
      EdgesDiffer(org, Trim(x.id), org, u);
      NoZoneMembership(x.groups, org, x.id, u);
      assert users == users[..n] + [x];
    }
  }

  lemma {:induction false} NoZoneMembership(groups: seq<string>, org: string, userID: string, u: string)
    ensures ZoneMemberEdge(org, u) !in MembershipsOf(groups, org, userID)
  {
    hide Trim;
    assert "zone" != "group" by { assert |"zone"| != |"group"|; }
    if groups != [] {
      NoZoneMembership(groups[..|groups| - 1], org, userID, u);
    }
  }

  lemma TopologyHasNoUser(primary: Group, fallback: Group, org: string, g: string, u: string)
    ensures UserEdge(g, u) !in Topology(primary, fallback)
    ensures ZoneMemberEdge(org, u) !in Topology(primary, fallback)
  {
    hide Trim, FirstNonEmpty;
    assert "user"[0] == 'u' && "zone"[0] == 'z' && "group"[0] == 'g';
  }

  lemma {:induction false} MembersInNoZone(group: Group, org: string, users: seq<string>, zone: string, u: string)
    ensures ZoneMemberEdge(zone, u) !in MembersOf(group, org, users)
  {
    hide Trim, FirstNonEmpty;
    assert "zone" != "group" by { assert |"zone"| != |"group"|; }
    if users != [] {
      MembersInNoZone(group, org, users[..|users| - 1], zone, u);
    }
  }

  lemma {:induction false} GroupsWritten(org: string, groups: seq<Group>, g: string, u: string)
    ensures UserEdge(g, u) in GroupsProjection(org, groups)
      <==> exists x, m :: x in groups && m in x.users && Trim(x.id) == g && Trim(m) == u
    ensures ZoneMemberEdge(org, u) !in GroupsProjection(org, groups)
  {
    hide UserEdge, ZoneMemberEdge, Topology, MembersOf, Trim;
    if groups != [] {
      var n := |groups| - 1;
      var x := groups[n];
      GroupsWritten(org, groups[..n], g, u);
      TopologyHasNoUser(x, EMPTY_GROUP.(orgID := org), org, g, u);
      MembersWritten(x, org, x.users, g, u);
      MembersInNoZone(x, org, x.users, org, u);
      assert groups == groups[..n] + [x];
    }
  }

  /** A tuple with trimmed, non-blank parts is written exactly when it is built. */
  lemma WrittenIffBuilt(rels: seq<Relationship>, r: Relationship)
    requires AllTrimmed(rels) && !Zero(r)
    ensures r in CleanedSet(rels) <==> r in rels
  {
    hide Zero, Trimmed;
    forall x | x in rels
      ensures Cleaned(x) == x
    {
      TrimmedIsCleaned(x);
    }
  }

  lemma UserEdgesVisible(g: string, u: string)
    requires !Blank(g) && !Blank(u)
    ensures u != "" && !Zero(UserEdge(g, u)) && !Zero(ZoneMemberEdge(g, u))
  {
  }

  /** What a reconcile writes about one user. */
  lemma ReconcileWrites(org: string, groups: seq<Group>, users: seq<User>, g: string, u: string)
    requires !Blank(org) && !Blank(g) && !Blank(u)
    ensures UserEdge(g, u) in CleanedSet(Projected(Trim(org), groups, users)) <==> ListedMember(groups, users, g, u)
    ensures ZoneMemberEdge(Trim(org), u) in CleanedSet(Projected(Trim(org), groups, users))
      <==> exists x :: x in users && Trim(x.id) == u
  {
    hide UserEdge, ZoneMemberEdge, PlatformEdge, UsersProjection, GroupsProjection, Trim, Blank, Zero, CleanedSet;
    var zone := Trim(org);
    var all := Projected(zone, groups, users);
    NotBlank(org);
    ProjectedTrimmed(zone, groups, users);
    UserEdgesVisible(g, u);
    UserEdgesVisible(zone, u);
    WrittenIffBuilt(all, UserEdge(g, u));
    WrittenIffBuilt(all, ZoneMemberEdge(zone, u));
    EdgesDiffer(Trim(zone), "", g, u);
    EdgesDiffer(Trim(zone), "", zone, u);
    UsersWritten(zone, users, g, u);
    GroupsWritten(zone, groups, g, u);
  }

  lemma NotBlank(s: string)
    requires !Blank(s)
    ensures !Blank(Trim(s)) && Trim(s) != "" && Trimmed(Trim(s))
  {
    TrimNotBlank(s);
  }

  /** The store after the user was disabled and the organization reconciled. */
  ghost function Returned(s: Store, userID: string, org: string, groups: seq<Group>, users: seq<User>): Store {
    Apply(Purged(s, userID), Reconciled(org, groups, users))
  }

  lemma ReturnedEdges(s: Store, userID: string, org: string, groups: seq<Group>, users: seq<User>, g: string)
    requires !Blank(userID) && !Blank(org) && CleanEvent(Reconciled(org, groups, users))
    ensures var t := Returned(s, userID, org, groups, users);
      UserEdge(g, Trim(userID)) in t <==> !Blank(g) && ListedMember(groups, users, g, Trim(userID))
  {
    hide Apply, Purged, UserEdge, Trim, Blank, CleanEvent, Projected, CleanedSet, ListedMember;
    var u := Trim(userID);
    NotBlank(userID);
    PurgedEdges(s, userID, g, u);
    WriteApplied(Purged(s, userID), Reconciled(org, groups, users), UserEdge(g, u));
    if Blank(g) {
      BlankNotWritten(Projected(Trim(org), groups, users), g, u);
    } else {
      ReconcileWrites(org, groups, users, g, u);
    }
  }

  lemma BlankNotWritten(rels: seq<Relationship>, g: string, u: string)
    requires Blank(g)
    ensures UserEdge(g, u) !in CleanedSet(rels)
  {
    hide Trim, Blank;
    forall x | x in rels && !Zero(x)
      ensures Cleaned(x) != UserEdge(g, u)
    {
      NotBlank(x.resource.id);
    }
  }

  lemma {:induction false} ResolvedHasDirect(s: Store, group: string, user: string, depth: nat) returns (direct: string)
    requires Resolves(s, group, user, depth)
    ensures UserEdge(direct, user) in s
    decreases depth
  {
    hide UserEdge, ChildEdge;
    if UserEdge(group, user) in s {
      direct := group;
    } else {
      var child :| ChildEdge(group, child) in s && Resolves(s, child, user, depth - 1);
      direct := ResolvedHasDirect(s, child, user, depth - 1);
    }
  }

  /** After DisableUser and the next Reconcile, the user belongs to some group
      again exactly when the directory's answer still names the user as a member
      of one, and to the zone exactly when it still lists the user. */
  lemma DisabledUserReturnsIff(s: Store, userID: string, org: string, groups: seq<Group>, users: seq<User>)
    requires !Blank(userID) && !Blank(org) && CleanEvent(Reconciled(org, groups, users))
    ensures var t, u := Returned(s, userID, org, groups, users), Trim(userID);
      && ((exists g :: Belongs(t, g, u)) <==> exists g :: !Blank(g) && ListedMember(groups, users, g, u))
      && (ZoneMemberEdge(Trim(org), u) in t <==> exists x :: x in users && Trim(x.id) == u)
  {
    hide Returned, UserEdge, ZoneMemberEdge, Trim, Blank, CleanEvent, ListedMember, Resolves;
    var t, u := Returned(s, userID, org, groups, users), Trim(userID);
    if g :| Belongs(t, g, u) {
      var depth: nat :| Resolves(t, g, u, depth);
      var direct := ResolvedHasDirect(t, g, u, depth);
      ReturnedEdges(s, userID, org, groups, users, direct);
    }
    if g :| !Blank(g) && ListedMember(groups, users, g, u) {
      ReturnedEdges(s, userID, org, groups, users, g);
      DirectResolves(t, g, u);
      assert Belongs(t, g, u);
    }
    ReturnedZone(s, userID, org, groups, users);
  }

  lemma DirectResolves(s: Store, group: string, user: string)
    requires UserEdge(group, user) in s
    ensures Resolves(s, group, user, 0)
  {
  }

  lemma ReturnedZone(s: Store, userID: string, org: string, groups: seq<Group>, users: seq<User>)
    requires !Blank(userID) && !Blank(org) && CleanEvent(Reconciled(org, groups, users))
    ensures var u := Trim(userID);
      ZoneMemberEdge(Trim(org), u) in Returned(s, userID, org, groups, users) <==>
        exists x :: x in users && Trim(x.id) == u
  {
    hide Apply, Purged, Trim, Blank, CleanEvent, Projected, CleanedSet, UserFilters, Hit;
    var u := Trim(userID);
    var r := ZoneMemberEdge(Trim(org), u);
    NotBlank(userID);
    NotBlank(org);
    PurgedStore(s, userID);
    UserFilterHits(userID, r);
    assert USER_RESOURCE_TYPES[1] == "zone";
    WriteApplied(Purged(s, userID), Reconciled(org, groups, users), r);
    ReconcileWrites(org, groups, users, Trim(org), u);
  }
}
