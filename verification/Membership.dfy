/** Who is a member of which group: resolving nested member usersets downwards
    agrees with climbing parent chains upwards, and a purged user is nowhere. */
module Membership {
  import opened Text
  import opened Relationships
  import opened Projection
  import opened Directory
  import opened EventPlans
  import opened Mirror

  /** The user is in `group#member` by unfolding at most `depth` nested usersets. */
  ghost predicate Resolves(s: Store, group: string, user: string, depth: nat)
    decreases depth
  {
    || UserEdge(group, user) in s
    || (depth > 0 && exists child :: ChildEdge(group, child) in s && Resolves(s, child, user, depth - 1))
  }

  ghost predicate Belongs(s: Store, group: string, user: string) {
    exists depth: nat :: Resolves(s, group, user, depth)
  }

  /** `top` is reached from `group` by exactly n parent edges. */
  ghost predicate Climbs(s: Store, group: string, top: string, n: nat)
    decreases n
  {
    if n == 0 then group == top
    else exists parent :: ParentEdge(group, parent) in s && Climbs(s, parent, top, n - 1)
  }

  lemma {:induction false} ClimbOneMore(s: Store, group: string, mid: string, top: string, n: nat)
    requires Climbs(s, group, mid, n) && ParentEdge(mid, top) in s
    ensures Climbs(s, group, top, n + 1)
    decreases n
  {
    hide ParentEdge;
    if n == 0 {
      assert Climbs(s, top, top, 0);
    } else {
      var parent :| ParentEdge(group, parent) in s && Climbs(s, parent, mid, n - 1);
      ClimbOneMore(s, parent, mid, top, n - 1);
    }
  }

  lemma {:induction false} ResolvedIsBelow(s: Store, group: string, user: string, depth: nat)
      returns (direct: string, n: nat)
    requires Mirrored(s) && Resolves(s, group, user, depth)
    ensures UserEdge(direct, user) in s && Climbs(s, direct, group, n)
    decreases depth
  {
    hide ParentEdge, ChildEdge, UserEdge;
    if UserEdge(group, user) in s {
      direct, n := group, 0;
    } else {
      var child :| ChildEdge(group, child) in s && Resolves(s, child, user, depth - 1);
      direct, n := ResolvedIsBelow(s, child, user, depth - 1);
      ClimbOneMore(s, direct, child, group, n);
      n := n + 1;
    }
  }

  lemma {:induction false} ClimbingResolves(s: Store, group: string, top: string, user: string, depth: nat, n: nat)
    requires Mirrored(s) && Resolves(s, group, user, depth) && Climbs(s, group, top, n)
    ensures Resolves(s, top, user, depth + n)
    decreases n
  {
    hide ParentEdge, ChildEdge, UserEdge;
    if n > 0 {
      var parent :| ParentEdge(group, parent) in s && Climbs(s, parent, top, n - 1);
      assert ChildEdge(parent, group) in s;
      ClimbingResolves(s, parent, top, user, depth + 1, n - 1);
    }
  }

  /** A user belongs to exactly the groups above some group that has the user
      as a direct member, at any distance. */
  lemma BelongsIffBelow(s: Store, group: string, user: string)
    requires Mirrored(s)
    ensures Belongs(s, group, user) <==>
      exists direct, n: nat :: UserEdge(direct, user) in s && Climbs(s, direct, group, n)
  {
    hide ParentEdge, ChildEdge, UserEdge;
    if Belongs(s, group, user) {
      var depth: nat :| Resolves(s, group, user, depth);
      var direct, n := ResolvedIsBelow(s, group, user, depth);
    }
    if exists direct, n: nat :: UserEdge(direct, user) in s && Climbs(s, direct, group, n) {
      var direct, n: nat :| UserEdge(direct, user) in s && Climbs(s, direct, group, n);
      assert Resolves(s, direct, user, 0);
      ClimbingResolves(s, direct, group, user, 0, n);
    }
  }

  // ---------- purging a user ----------

  lemma UserFilterHits(userID: string, r: Relationship)
    requires !Blank(userID)
    ensures Hit(UserFilters(userID), r)
      <==> r.subject.typ == "user" && r.subject.id == Trim(userID) && r.resource.typ in USER_RESOURCE_TYPES
  {
    hide Trim;
    var fs := UserFilters(userID);
    assert forall i :: 0 <= i < |USER_RESOURCE_TYPES| ==> USER_RESOURCE_TYPES[i] != "";
    if Hit(fs, r) {
      var f :| f in fs && Matches(f, r);
      var i :| 0 <= i < |fs| && fs[i] == f;
      assert r.resource.typ == USER_RESOURCE_TYPES[i];
    }
    if r.subject.typ == "user" && r.subject.id == Trim(userID) && r.resource.typ in USER_RESOURCE_TYPES {
      var i :| 0 <= i < |USER_RESOURCE_TYPES| && USER_RESOURCE_TYPES[i] == r.resource.typ;
      assert fs[i] in fs && Matches(fs[i], r);
    }
  }

  ghost function Purged(s: Store, userID: string): Store {
    Full(s, EventPlan(UserPurged(userID), []))
  }

  lemma PurgedStore(s: Store, userID: string)
    ensures Purged(s, userID) == Remaining(s, UserFilters(userID))
  {
    hide EventPlan, UserFilters, Remaining;
    DeleteEventPlan(UserPurged(userID), []);
    FullRemove(s, UserFilters(userID));
  }

  lemma PurgedEdges(s: Store, userID: string, group: string, other: string)
    requires !Blank(userID)
    ensures UserEdge(group, Trim(userID)) !in Purged(s, userID)
    ensures other != Trim(userID) ==> (UserEdge(group, other) in Purged(s, userID) <==> UserEdge(group, other) in s)
    ensures ChildEdge(group, other) in Purged(s, userID) <==> ChildEdge(group, other) in s
  {
    hide Purged, UserFilters, Hit, Trim;
    PurgedStore(s, userID);
    UserFilterHits(userID, UserEdge(group, Trim(userID)));
    UserFilterHits(userID, UserEdge(group, other));
    UserFilterHits(userID, ChildEdge(group, other));
    assert USER_RESOURCE_TYPES[2] == "group";
  }

  lemma {:induction false} PurgedResolvesNothing(s: Store, userID: string, group: string, depth: nat)
    requires !Blank(userID)
    ensures !Resolves(Purged(s, userID), group, Trim(userID), depth)
    decreases depth
  {
    hide Purged, Trim, UserEdge, ChildEdge;
    PurgedEdges(s, userID, group, "");
    if depth > 0 {
      forall child | ChildEdge(group, child) in Purged(s, userID)
        ensures !Resolves(Purged(s, userID), child, Trim(userID), depth - 1)
      {
        PurgedResolvesNothing(s, userID, child, depth - 1);
      }
    }
  }

  lemma {:induction false} PurgeSparesOthers(s: Store, userID: string, group: string, other: string, depth: nat)
    requires !Blank(userID) && other != Trim(userID)
    ensures Resolves(Purged(s, userID), group, other, depth) <==> Resolves(s, group, other, depth)
    decreases depth
  {
    hide Purged, Trim, UserEdge, ChildEdge;
    PurgedEdges(s, userID, group, other);
    if depth > 0 {
      forall child
        ensures ChildEdge(group, child) in Purged(s, userID) <==> ChildEdge(group, child) in s
        ensures Resolves(Purged(s, userID), child, other, depth - 1) <==> Resolves(s, child, other, depth - 1)
      {
        PurgedEdges(s, userID, group, child);
        PurgeSparesOthers(s, userID, child, other, depth - 1);
      }
    }
  }

  /** Once DeleteUser or DisableUser is applied the user belongs to no group, and
      everybody else belongs where they did. */
  lemma PurgedBelongsNowhere(s: Store, userID: string, group: string, other: string)
    requires !Blank(userID)
    ensures !Belongs(Purged(s, userID), group, Trim(userID))
    ensures other != Trim(userID) ==> (Belongs(Purged(s, userID), group, other) <==> Belongs(s, group, other))
  {
    hide Purged, Trim, Resolves;
    forall depth: nat
      ensures !Resolves(Purged(s, userID), group, Trim(userID), depth)
      ensures other != Trim(userID) ==>
          (Resolves(Purged(s, userID), group, other, depth) <==> Resolves(s, group, other, depth))
    {
      PurgedResolvesNothing(s, userID, group, depth);
      if other != Trim(userID) {
        PurgeSparesOthers(s, userID, group, other, depth);
      }
    }
  }
}
