/** Reconcile writes the desired tuples of an organization, drift reports the
    desired tuples the store does not have. */
module Drift {
  import opened Text
  import opened Sequences
  import opened Relationships
  import opened Projection
  import opened Dispatcher
  import opened Directory
  import opened EventPlans
  import opened Mirror
  import opened Agreement
  import opened Operations

  // ---------- DetectDirectoryProjectionDrift ----------

  /** The store answers a read of the tuple: the tuple itself, or, when the tuple
      has no subject relation, any variant of it with one. */
  predicate Present(s: Store, r: Relationship) {
    exists t :: t in s && Matches(Naming(r), t)
  }

  function Missing(s: Store, rels: seq<Relationship>): seq<Relationship> {
    if rels == [] then []
    else
      var n := |rels| - 1;
      Missing(s, rels[..n]) + (if Present(s, rels[n]) then [] else [rels[n]])
  }

  method DetectDirectoryProjectionDrift(reader: RelationshipStore, desired: seq<Relationship>)
    returns (missing: seq<Relationship>, ok: bool)
    modifies reader`calls
    ensures ok ==> missing == Missing(reader.tuples, Dedupe(desired))
    ensures !ok ==> missing <= Missing(reader.tuples, Dedupe(desired))
    ensures (forall c :: c >= old(reader.calls) ==> !reader.fails(c)) ==> ok
  {
    hide Present;
    var rels := DedupeRelationships(desired);
    missing := [];
    for i := 0 to |rels|
      invariant missing == Missing(reader.tuples, rels[..i])
      invariant reader.calls == old(reader.calls) + i
    {
      assert rels[..i + 1][..i] == rels[..i];
      var current, read := reader.ReadRelationships(Naming(rels[i]));
      if !read {
        MissingGrows(reader.tuples, rels, i);
        return missing, false;
      }
      PresentIffRead(reader.tuples, rels[i], current);
      if |current| == 0 {
        missing := missing + [rels[i]];
      }
    }
    assert rels[..|rels|] == rels;
    ok := true;
  }

  lemma PresentIffRead(s: Store, r: Relationship, current: seq<Relationship>)
    requires Elements(current) == set t | t in s && Matches(Naming(r), t)
    ensures |current| == 0 <==> !Present(s, r)
  {
    if |current| > 0 {
      assert current[0] in Elements(current);
    }
    if Present(s, r) {
      var t :| t in s && Matches(Naming(r), t);
      assert t in Elements(current);
    }
  }

  lemma {:induction false} MissingGrows(s: Store, rels: seq<Relationship>, i: nat)
    requires i <= |rels|
    ensures Missing(s, rels[..i]) <= Missing(s, rels)
    decreases |rels|
  {
    hide Present;
    if i < |rels| {
      var n := |rels| - 1;
      MissingGrows(s, rels[..n], i);
      assert rels[..n][..i] == rels[..i];
    } else {
      assert rels[..i] == rels;
    }
  }

  /** Desired minus store, in desired order. */
  function Minus(rels: seq<Relationship>, s: Store): seq<Relationship> {
    if rels == [] then []
    else
      var n := |rels| - 1;
      Minus(rels[..n], s) + (if rels[n] in s then [] else [rels[n]])
  }

  /** A desired tuple the store has only with another subject relation. */
  predicate Masked(s: Store, r: Relationship) {
    r !in s && Present(s, r)
  }

  lemma StoredIsPresent(s: Store, r: Relationship)
    requires r in s
    ensures Present(s, r)
  {
    assert Matches(Naming(r), r);
  }

  /** What masks a tuple: it has no subject relation and a stored variant does. */
  lemma MaskedIff(s: Store, r: Relationship)
    requires !Zero(r)
    ensures Masked(s, r) <==> (r !in s && r.subject.relation == ""
                               && exists rel :: r.(subject := r.subject.(relation := rel)) in s)
  {
    if Present(s, r) && r !in s {
      var t :| t in s && Matches(Naming(r), t);
      assert t == r.(subject := r.subject.(relation := t.subject.relation));
    }
    if r.subject.relation == "" && exists rel :: r.(subject := r.subject.(relation := rel)) in s {
      var rel :| r.(subject := r.subject.(relation := rel)) in s;
      assert Matches(Naming(r), r.(subject := r.subject.(relation := rel)));
    }
  }

  /** Drift is exactly desired minus store, in order, if and only if no desired
      tuple is masked. */
  lemma {:induction false} DriftExactIff(s: Store, rels: seq<Relationship>)
    ensures |Missing(s, rels)| <= |Minus(rels, s)|
    ensures Missing(s, rels) == Minus(rels, s) <==> forall r :: r in rels ==> !Masked(s, r)
  {
    hide Present;
    if rels != [] {
      var n := |rels| - 1;
      DriftExactIff(s, rels[..n]);
      assert rels == rels[..n] + [rels[n]];
      if rels[n] in s { StoredIsPresent(s, rels[n]); }
      var init := Missing(s, rels[..n]);
      if !Masked(s, rels[n]) && Missing(s, rels) == Minus(rels, s) {
        SameTail(init, Minus(rels[..n], s), if rels[n] in s then [] else [rels[n]]);
      }
    }
  }

  lemma SameTail(a: seq<Relationship>, b: seq<Relationship>, tail: seq<Relationship>)
    requires a + tail == b + tail
    ensures a == b
  {
    assert a == (a + tail)[..|a|] && b == (b + tail)[..|b|];
  }

  lemma {:induction false} MissingMember(s: Store, rels: seq<Relationship>, r: Relationship)
    ensures r in Missing(s, rels) <==> r in rels && !Present(s, r)
  {
    hide Present;
    if rels != [] {
      var n := |rels| - 1;
      MissingMember(s, rels[..n], r);
      assert rels == rels[..n] + [rels[n]];
    }
  }

  // ---------- the desired tuples are already normalized ----------

  ghost predicate AllTrimmed(rels: seq<Relationship>) {
    forall r :: r in rels ==> Trimmed(r.resource.id) && Trimmed(r.subject.id)
  }

  lemma TopologyTrimmed(primary: Group, fallback: Group)
    ensures AllTrimmed(Topology(primary, fallback))
  {
    hide Trim, FirstNonEmpty, Trimmed;
  }

  lemma {:induction false} MembershipsTrimmed(groups: seq<string>, orgID: string, userID: string)
    ensures AllTrimmed(MembershipsOf(groups, orgID, userID))
  {
    hide Trim, Trimmed;
    if groups != [] {
      MembershipsTrimmed(groups[..|groups| - 1], orgID, userID);
    }
  }

  lemma {:induction false} MembersTrimmed(group: Group, orgID: string, users: seq<string>)
    ensures AllTrimmed(MembersOf(group, orgID, users))
  {
    hide Trim, Trimmed, FirstNonEmpty;
    if users != [] {
      MembersTrimmed(group, orgID, users[..|users| - 1]);
    }
  }

  lemma {:induction false} UsersTrimmed(orgID: string, users: seq<User>)
    requires Trimmed(orgID)
    ensures AllTrimmed(UsersProjection(orgID, users))
  {
    hide Trim, Trimmed, MembershipsOf;
    if users != [] {
      var user := users[|users| - 1];
      UsersTrimmed(orgID, users[..|users| - 1]);
      MembershipsTrimmed(user.groups, orgID, user.id);
    }
  }

  lemma {:induction false} GroupsTrimmed(orgID: string, groups: seq<Group>)
    ensures AllTrimmed(GroupsProjection(orgID, groups))
  {
    hide Topology, MembersOf, Trimmed;
    if groups != [] {
      var group := groups[|groups| - 1];
      GroupsTrimmed(orgID, groups[..|groups| - 1]);
      TopologyTrimmed(group, EMPTY_GROUP.(orgID := orgID));
      MembersTrimmed(group, orgID, group.users);
    }
  }

  lemma ProjectedTrimmed(orgID: string, groups: seq<Group>, users: seq<User>)
    requires Trimmed(orgID)
    ensures AllTrimmed(Projected(orgID, groups, users))
  {
    hide Trim, UsersProjection, GroupsProjection;
    PlatformTrimmed();
    UsersTrimmed(orgID, users);
    GroupsTrimmed(orgID, groups);
  }

  lemma PlatformTrimmed()
    ensures Trimmed(DEFAULT_PLATFORM_ID)
  {
  }

  ghost function Desired(orgID: string, groups: seq<Group>, users: seq<User>): seq<Relationship> {
    Dedupe(Projected(orgID, groups, users))
  }

  lemma DesiredIsNormal(orgID: string, groups: seq<Group>, users: seq<User>)
    requires Trimmed(orgID)
    ensures forall r :: r in Desired(orgID, groups, users) ==> Tidy(r)
    ensures Normalize(Payload(OP_WRITE, Desired(orgID, groups, users), []))
        == Payload(OP_WRITE, Desired(orgID, groups, users), [])
  {
    hide Projected, Trimmed, Zero;
    var all := Projected(orgID, groups, users);
    var d := Desired(orgID, groups, users);
    ProjectedTrimmed(orgID, groups, users);
    DedupeExact(all);
    forall r | r in d
      ensures Tidy(r)
    {
      assert r in Elements(Dedupe(all));
    }
    DedupeIdempotent(all);
    TidyIsNormal(d);
  }

  lemma TidyIsNormal(d: seq<Relationship>)
    requires forall r :: r in d ==> Tidy(r)
    requires Dedupe(d) == d
    ensures Normalize(Payload(OP_WRITE, d, [])) == Payload(OP_WRITE, d, [])
  {
    hide Zero;
    forall r | r in d
      ensures !Zero(r) && Cleaned(r) == r
    {
      TrimmedIsCleaned(r);
    }
    CollectStable(d, Zero, Cleaned);
    OperationsDiffer();
  }

  // ---------- the service ----------

  class DirectoryProjectionOps {
    const projection: IdentityProjectionDispatcher
    const authz: RelationshipStore

    constructor (projection: IdentityProjectionDispatcher, authz: RelationshipStore)
      ensures this.projection == projection && this.authz == authz
    {
      this.projection, this.authz := projection, authz;
    }

    /** `listing` is what the directory answers for the organization, None on error. */
    method Reconcile(org: string, listing: Option<(seq<Group>, seq<User>)>) returns (relationships: nat, ok: bool)
      modifies projection, projection.writer
      ensures Blank(org) || listing == None ==> !ok && projection.State() == old(projection.State())
      ensures !Blank(org) && listing.Some? ==>
        var d := Desired(Trim(org), listing.value.0, listing.value.1);
        && (projection.State(), ok)
            == Dispatch(projection.Environment(), old(projection.State()), Payload(OP_WRITE, d, []))
        && (ok ==> relationships == |d|)
    {
      hide Dispatch;
      relationships, ok := 0, false;
      var orgID := Trim(org);
      if orgID == "" || listing == None { return; }
      var rels := BuildDirectoryProjectionRelationships(orgID, listing.value.0, listing.value.1);
      ok := projection.DispatchEvent(Payload(OP_WRITE, rels, []));
      if ok { relationships := |rels|; }
    }

    method Drift(org: string, listing: Option<(seq<Group>, seq<User>)>)
      returns (desired: nat, missing: seq<Relationship>, ok: bool)
      modifies authz`calls
      ensures ok ==> !Blank(org) && listing.Some?
      ensures !Blank(org) && listing.Some? && (forall c :: c >= old(authz.calls) ==> !authz.fails(c)) ==> ok
      ensures ok ==>
        var d := Desired(Trim(org), listing.value.0, listing.value.1);
        desired == |d| && missing == Missing(authz.tuples, d)
    {
      desired, missing, ok := 0, [], false;
      var orgID := Trim(org);
      if orgID == "" || listing == None { return; }
      var rels := BuildDirectoryProjectionRelationships(orgID, listing.value.0, listing.value.1);
      var found, done := DetectDirectoryProjectionDrift(authz, rels);
      if !done { return; }
      DedupeIdempotent(Projected(Trim(org), listing.value.0, listing.value.1));
      desired, missing, ok := |rels|, found, true;
    }

    method Retry(limit: int) returns (processed: nat)
      modifies projection, projection.writer
      ensures (projection.State(), processed) == RetryOnce(projection.Environment(), old(projection.State()), limit)
    {
      processed := projection.Retry(limit);
    }
  }

  /** What a successful direct Reconcile makes of the store. */
  ghost function ReconciledStore(s: Store, orgID: string, groups: seq<Group>, users: seq<User>): Store {
    Full(s, ApplyPlan(Normalize(Payload(OP_WRITE, Desired(orgID, groups, users), []))))
  }

  /** Reconcile adds exactly the desired tuples; in particular it removes none
      and doing it again changes nothing. */
  lemma ReconcileAdds(env: Env, w: World, orgID: string, groups: seq<Group>, users: seq<User>)
    requires Trimmed(orgID) && !env.dtm
    requires var p := Payload(OP_WRITE, Desired(orgID, groups, users), []); Dispatch(env, w, p).1
    ensures var t := Dispatch(env, w, Payload(OP_WRITE, Desired(orgID, groups, users), [])).0.tuples;
      && t == w.tuples + Elements(Desired(orgID, groups, users))
      && ReconciledStore(t, orgID, groups, users) == t
  {
    hide Dispatch, Desired, Normalize;
    var d := Desired(orgID, groups, users);
    DirectDispatch(env, w, Payload(OP_WRITE, d, []));
    DesiredIsNormal(orgID, groups, users);
    assert w.tuples + Elements(d) + Elements(d) == w.tuples + Elements(d);
  }

  lemma {:induction false} NothingMissing(s: Store, rels: seq<Relationship>)
    requires forall r :: r in rels ==> Present(s, r)
    ensures Missing(s, rels) == []
  {
    hide Present;
    if rels != [] {
      NothingMissing(s, rels[..|rels| - 1]);
    }
  }

  /** After a successful direct Reconcile of an unchanged directory, drift is
      empty, whatever the store held before. */
  lemma NoDriftAfterReconcile(env: Env, w: World, orgID: string, groups: seq<Group>, users: seq<User>)
    requires Trimmed(orgID) && !env.dtm
    requires var p := Payload(OP_WRITE, Desired(orgID, groups, users), []); Dispatch(env, w, p).1
    ensures var d := Desired(orgID, groups, users);
      Missing(Dispatch(env, w, Payload(OP_WRITE, d, [])).0.tuples, d) == []
  {
    hide Dispatch, Desired, Present;
    var d := Desired(orgID, groups, users);
    ReconcileAdds(env, w, orgID, groups, users);
    var t := Dispatch(env, w, Payload(OP_WRITE, d, [])).0.tuples;
    forall r | r in d
      ensures Present(t, r)
    {
      assert r in Elements(d);
      StoredIsPresent(t, r);
    }
    NothingMissing(t, d);
  }

  /** What Reconcile dispatches writes the same tuples as the Reconciled event. */
  lemma ReconcileMatchesEvent(orgID: string, groups: seq<Group>, users: seq<User>)
    requires CleanEvent(Reconciled(orgID, groups, users)) && !Blank(orgID)
    ensures EventPlan(Reconciled(orgID, groups, users), []).Add?
    ensures Elements(EventPlan(Reconciled(orgID, groups, users), []).rels)
        == Elements(Desired(Trim(orgID), groups, users))
  {
    hide Projected, Separable, Zero, Trim, Trimmed, EventPlan;
    var all := Projected(Trim(orgID), groups, users);
    WriteEventPlan(Reconciled(orgID, groups, users));
    ProjectedTrimmed(Trim(orgID), groups, users);
    ProjectedSeparable(orgID, groups, users);
    DedupeSeparable(all);
    forall r | r in all
      ensures Cleaned(r) == r
    {
      TrimmedIsCleaned(r);
    }
    assert CleanedSet(all) == NonZero(all);
  }

  /** A successful direct Reconcile keeps the parent/member mirror. */
  lemma ReconcileKeepsMirrored(env: Env, w: World, orgID: string, groups: seq<Group>, users: seq<User>)
    requires CleanEvent(Reconciled(orgID, groups, users)) && !Blank(orgID) && Trimmed(orgID)
    requires !env.dtm && Mirrored(w.tuples)
    requires Dispatch(env, w, Payload(OP_WRITE, Desired(orgID, groups, users), [])).1
    ensures Mirrored(Dispatch(env, w, Payload(OP_WRITE, Desired(orgID, groups, users), [])).0.tuples)
  {
    hide Dispatch, Desired, EventPlan, Mirrored, CleanEvent, Trim, Trimmed;
    var e := Reconciled(orgID, groups, users);
    ReconcileAdds(env, w, orgID, groups, users);
    ReconcileMatchesEvent(orgID, groups, users);
    assert Trim(orgID) == orgID;
    AppliedKeepsMirrored(w.tuples, Done(e));
  }

  // ---------- drift of a healthy store ----------

  ghost predicate ListedGroup(dir: Registry, org: string, grp: Group) {
    && InOrg(dir, org, grp.id) && grp.orgID == org && grp.parentID == dir[grp.id].parent
    && forall u :: u in grp.users <==> u in dir[grp.id].members
  }

  ghost predicate ListedUser(dir: Registry, org: string, user: User) {
    GoodID(user.id) && forall g :: g in user.groups ==> InOrg(dir, org, g) && user.id in dir[g].members
  }

  /** The directory's answer lists exactly the organization's groups, with their
      members, and no membership the directory does not have. */
  ghost predicate Lists(dir: Registry, org: string, groups: seq<Group>, users: seq<User>) {
    && (forall grp :: grp in groups ==> ListedGroup(dir, org, grp))
    && (forall g :: InOrg(dir, org, g) ==> exists grp :: grp in groups && grp.id == g)
    && (forall user :: user in users ==> ListedUser(dir, org, user))
  }

  ghost predicate OfOrg(dir: Registry, org: string, r: Relationship) {
    exists g :: InOrg(dir, org, g) && Has(g, dir[g], r)
  }

  lemma {:induction false} MembershipsAre(groups: seq<string>, org: string, user: string, r: Relationship)
    requires GoodID(user) && forall g :: g in groups ==> GoodID(g)
    ensures r in MembershipsOf(groups, org, user) <==> exists g :: g in groups && r == UserEdge(g, user)
  {
    hide Trim, UserEdge, CleanID;
    if groups != [] {
      var n := |groups| - 1;
      MembershipsAre(groups[..n], org, user, r);
      assert groups == groups[..n] + [groups[n]];
      assert GoodID(groups[n]);
      assert GroupMember(QualifiedGroupID(org, groups[n]), user) == UserEdge(groups[n], user);
    }
  }

  lemma {:induction false} MembersAre(group: Group, org: string, users: seq<string>, r: Relationship)
    requires GoodID(group.id) && forall u :: u in users ==> GoodID(u)
    ensures r in MembersOf(group, org, users) <==> exists u :: u in users && r == UserEdge(group.id, u)
  {
    hide Trim, FirstNonEmpty, UserEdge, CleanID;
    if users != [] {
      var n := |users| - 1;
      MembersAre(group, org, users[..n], r);
      assert users == users[..n] + [users[n]];
      assert GoodID(users[n]);
      assert GroupMember(QualifiedGroupID(FirstNonEmpty(group.orgID, org), group.id), users[n])
          == UserEdge(group.id, users[n]);
    }
  }

  lemma UserProjectsMembers(dir: Registry, org: string, user: User, r: Relationship)
    requires GoodRegistry(dir) && IsIndexed(r) && ListedUser(dir, org, user)
    requires r in UserProjection(org, user)
    ensures OfOrg(dir, org, r)
  {
    hide MembershipsOf, UserEdge, ZoneMemberEdge, IsIndexed, CleanID, Has, GoodRecord, Trim;
    ZoneResource(org, Trim(user.id));
    MembershipsAre(user.groups, org, user.id, r);
    var g :| g in user.groups && r == UserEdge(g, user.id);
    UserEdgeHas(g, dir[g], user.id);
  }

  lemma {:induction false} UsersProjectMembers(dir: Registry, org: string, users: seq<User>, r: Relationship)
    requires GoodRegistry(dir) && IsIndexed(r)
    requires forall user :: user in users ==> ListedUser(dir, org, user)
    requires r in UsersProjection(org, users)
    ensures OfOrg(dir, org, r)
  {
    hide UserProjection, IsIndexed, OfOrg, ListedUser, GoodRegistry;
    var n := |users| - 1;
    if r in UsersProjection(org, users[..n]) {
      UsersProjectMembers(dir, org, users[..n], r);
    } else {
      UserProjectsMembers(dir, org, users[n], r);
    }
  }

  lemma UserEdgeHas(g: string, rec: Record, user: string)
    requires user in rec.members
    ensures Has(g, rec, UserEdge(g, user))
  {
  }

  /** One listed group projects exactly what its record has. */
  lemma GroupProjects(dir: Registry, org: string, grp: Group, r: Relationship)
    requires GoodRegistry(dir) && ListedGroup(dir, org, grp)
    ensures r in Topology(grp, EMPTY_GROUP.(orgID := org)) || r in MembersOf(grp, org, grp.users)
        <==> Has(grp.id, dir[grp.id], r)
  {
    hide MembersOf, Trim, CleanID;
    var rec := dir[grp.id];
    assert GoodID(grp.id) && GoodRecord(rec);
    MembersAre(grp, org, grp.users, r);
    assert Topology(grp, EMPTY_GROUP.(orgID := org)) == TopologyEdges(org, grp.id, rec.parent);
    assert r in TopologyEdges(org, grp.id, rec.parent) <==> TopologyHas(grp.id, rec, r);
    MembersHaveIff(grp, rec, r);
  }

  lemma MembersHaveIff(grp: Group, rec: Record, r: Relationship)
    requires forall u :: u in grp.users <==> u in rec.members
    ensures (exists u :: u in grp.users && r == UserEdge(grp.id, u)) <==> MembersHave(grp.id, rec, r)
  {
    if MembersHave(grp.id, rec, r) {
      assert r.subject.id in grp.users;
    }
  }

  lemma {:induction false} GroupsProjectRecords(dir: Registry, org: string, groups: seq<Group>, r: Relationship)
    requires GoodRegistry(dir)
    requires forall grp :: grp in groups ==> ListedGroup(dir, org, grp)
    ensures r in GroupsProjection(org, groups)
        <==> exists grp :: grp in groups && grp.id in dir && Has(grp.id, dir[grp.id], r)
  {
    hide Topology, MembersOf, Has, GoodRegistry;
    if groups != [] {
      var n := |groups| - 1;
      GroupsProjectRecords(dir, org, groups[..n], r);
      GroupProjects(dir, org, groups[n], r);
      assert groups == groups[..n] + [groups[n]];
    }
  }

  /** The group tuples that reconcile and drift want are exactly the projection
      of the organization's groups that the operations maintain. */
  lemma DesiredIsProjection(dir: Registry, org: string, groups: seq<Group>, users: seq<User>, r: Relationship)
    requires GoodRegistry(dir) && GoodID(org) && Lists(dir, org, groups, users) && IsIndexed(r)
    ensures r in Projected(org, groups, users) <==> OfOrg(dir, org, r)
  {
    hide UsersProjection, GroupsProjection, Has, IsIndexed, GoodRegistry, CleanID, PlatformEdge, Trim;
    PlatformNotIndexed(org, r);
    GroupsProjectRecords(dir, org, groups, r);
    if r in UsersProjection(org, users) {
      UsersProjectMembers(dir, org, users, r);
    }
    if OfOrg(dir, org, r) {
      var g :| InOrg(dir, org, g) && Has(g, dir[g], r);
      var grp :| grp in groups && grp.id == g;
    }
  }

  lemma PlatformNotIndexed(org: string, r: Relationship)
    requires IsIndexed(r)
    ensures r != PlatformEdge(org) && r != PlatformZone(org)
  {
    assert |"zone"| != |"group"|;
  }

  /** After any run of operations that keeps the index healthy, drift reports no
      group tuple: whatever it misses concerns the zone itself. */
  lemma HealthyHasNoGroupDrift(dir: Registry, s: Store, org: string, groups: seq<Group>, users: seq<User>,
      r: Relationship)
    requires Healthy(dir, s) && GoodID(org) && Lists(dir, org, groups, users)
    requires r in Missing(s, Desired(org, groups, users))
    ensures !IsIndexed(r)
  {
    hide Projected, Present, IsIndexed, Has, Zero, GoodRegistry, Lists, CleanID;
    var all := Projected(org, groups, users);
    MissingMember(s, Desired(org, groups, users), r);
    DedupeExact(all);
    assert r in Elements(Dedupe(all));
    if IsIndexed(r) {
      DesiredIsProjection(dir, org, groups, users, r);
      var g :| InOrg(dir, org, g) && Has(g, dir[g], r);
      assert InProjection(dir, r);
      StoredIsPresent(s, r);
      assert false;
    }
  }
}
