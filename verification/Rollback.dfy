/** Saga rollback of a delete: capture the tuples, apply any part of the delete
    filters, then write the captured tuples back. */
module Rollback {
  import opened Text
  import opened Relationships
  import opened Projection
  import opened Directory
  import opened EventPlans
  import opened Mirror

  ghost predicate AllCanonical(s: Store) {
    forall r :: r in s ==> Canonical(r)
  }

  // ---------- captureRelationships ----------

  /** Filters without a resource type are not read. */
  predicate Readable(f: Filter) {
    !Blank(f.resourceType)
  }

  ghost predicate Caught(fs: seq<Filter>, r: Relationship) {
    exists f :: f in fs && Readable(f) && Matches(f, r)
  }

  ghost function Captured(s: Store, fs: seq<Filter>): Store {
    set r | r in s && Caught(fs, r)
  }

  lemma CaughtStep(fs: seq<Filter>, i: nat, r: Relationship)
    requires i < |fs|
    ensures Caught(fs[..i + 1], r) <==> Caught(fs[..i], r) || (Readable(fs[i]) && Matches(fs[i], r))
  {
    hide Matches, Readable;
    assert fs[..i + 1] == fs[..i] + [fs[i]];
  }

  /** The compensation data of a delete. Without a reader nothing is captured; a
      failing read ends the capture with what was read before it. */
  method CaptureRelationships(reader: RelationshipStore?, filters: seq<Filter>)
    returns (rels: seq<Relationship>, ok: bool, ghost reached: nat)
    modifies if reader == null then {} else {reader}
    ensures reader == null ==> rels == [] && ok
    ensures reader != null ==> reader.tuples == old(reader.tuples) && reader.calls >= old(reader.calls)
    ensures reader != null ==> reached <= |filters|
    ensures reader != null && AllCanonical(reader.tuples) ==>
        Elements(rels) == Captured(reader.tuples, filters[..reached])
    ensures reader != null && ok ==> reached == |filters|
    ensures reader != null && !ok ==> reader.calls > old(reader.calls) && reader.fails(reader.calls - 1)
  {
    hide Canonical, Matches;
    rels, ok, reached := [], true, 0;
    if reader == null { return; }
    ghost var tuples := reader.tuples;
    var all: seq<Relationship> := [];
    for i := 0 to |filters|
      invariant reached == i && reader.tuples == tuples && reader.calls >= old(reader.calls)
      invariant Elements(all) == Captured(tuples, filters[..i])
    {
      forall r
        ensures Caught(filters[..i + 1], r)
            <==> Caught(filters[..i], r) || (Readable(filters[i]) && Matches(filters[i], r))
      {
        CaughtStep(filters, i, r);
      }
      if Blank(filters[i].resourceType) {
        reached := reached + 1;
        continue;
      }
      var part, partOk := reader.ReadRelationships(filters[i]);
      if !partOk {
        return all, false, reached;
      }
      assert Elements(all + part) == Elements(all) + Elements(part);
      all := all + part;
      reached := reached + 1;
    }
    assert filters[..|filters|] == filters;
    rels := DedupeRelationships(all);
    if AllCanonical(tuples) {
      CapturedDedupe(tuples, filters, all);
    }
  }

  lemma CapturedDedupe(s: Store, filters: seq<Filter>, all: seq<Relationship>)
    requires AllCanonical(s) && Elements(all) == Captured(s, filters)
    ensures Elements(Dedupe(all)) == Elements(all)
  {
    forall r | r in all
      ensures !Zero(r) && Separable(r)
    {
      assert r in Elements(all);
      assert Canonical(r);
    }
    DedupeSeparable(all);
    assert NonZero(all) == Elements(all);
  }

  // ---------- rollback ----------

  predicate Capturing(e: Event) {
    e.GroupDeleted? || e.UserPurged? || e.OrganizationDeleted?
  }

  lemma DeleteUndoPlan(e: Event, captured: seq<Relationship>)
    requires Capturing(e) && forall r :: r in captured ==> Canonical(r)
    ensures UndoPlan(e, captured).Add? && Elements(UndoPlan(e, captured).rels) == Elements(captured)
  {
    hide Canonical, Normalize, Elements, DeletedBy, PlainFilter;
    var p := PayloadOf(e, captured);
    DeleteShape(e, captured);
    DeletedByPlain(e);
    CapturedShape(e, captured);
    NormalizeKeepsCanonical(p.operation, captured, p.filters);
    PlainNotBlank(p.filters);
    NormalizeIdempotent(p);
    DeleteOperation(p);
  }

  lemma CapturedShape(e: Event, captured: seq<Relationship>)
    requires Capturing(e)
    ensures PayloadOf(e, captured) == Payload(OP_DELETE, captured, DeletedBy(e))
  {
  }

  lemma PlainNotBlank(fs: seq<Filter>)
    requires forall f :: f in fs ==> PlainFilter(f)
    ensures forall f :: f in fs ==> !BlankIdOnly(f)
  {
  }

  lemma DeleteOperation(p: Payload)
    requires p.operation == OP_DELETE
    ensures Normalize(p).operation == OP_DELETE && OP_DELETE != OP_WRITE
  {
    OperationsDiffer();
  }

  /** The delete got through its first k filters, then was compensated. */
  ghost function RolledBack(s: Store, e: Event, captured: seq<Relationship>, k: nat): Store
    requires k <= Steps(EventPlan(e, captured))
  {
    Full(After(s, EventPlan(e, captured), k), UndoPlan(e, captured))
  }

  lemma RolledBackStore(s: Store, e: Event, captured: seq<Relationship>, k: nat)
    requires Capturing(e) && AllCanonical(s) && Elements(captured) <= s && k <= |DeletedBy(e)|
    ensures EventPlan(e, captured) == Remove(DeletedBy(e))
    ensures RolledBack(s, e, captured, k) == Remaining(s, DeletedBy(e)[..k]) + Elements(captured)
  {
    hide Canonical, EventPlan, UndoPlan, DeletedBy, Remaining;
    DeleteEventPlan(e, captured);
    forall r | r in captured
      ensures Canonical(r)
    {
      assert r in Elements(captured);
    }
    DeleteUndoPlan(e, captured);
  }

  /** However far the delete and the capture got, the rollback restores the store
      exactly when every deleted tuple had been captured. */
  lemma RollbackExactIff(s: Store, e: Event, captured: seq<Relationship>, k: nat)
    requires Capturing(e) && AllCanonical(s) && Elements(captured) <= s && k <= |DeletedBy(e)|
    ensures EventPlan(e, captured) == Remove(DeletedBy(e))
    ensures RolledBack(s, e, captured, k) == s
      <==> forall r :: r in s && Hit(DeletedBy(e)[..k], r) ==> r in captured
  {
    hide Canonical, RolledBack, Hit, DeletedBy, EventPlan, Remaining;
    RolledBackStore(s, e, captured, k);
    WriteBackRestoresIff(s, DeletedBy(e)[..k], captured);
  }

  lemma WriteBackRestoresIff(s: Store, fs: seq<Filter>, captured: seq<Relationship>)
    requires Elements(captured) <= s
    ensures Remaining(s, fs) + Elements(captured) == s <==> forall r :: r in s && Hit(fs, r) ==> r in captured
  {
    hide Hit;
    var back := Remaining(s, fs) + Elements(captured);
    if back == s {
      forall r | r in s && Hit(fs, r)
        ensures r in captured
      {
        assert r in back;
      }
    }
  }

  lemma HitPrefix(fs: seq<Filter>, k: nat, r: Relationship)
    requires k <= |fs| && Hit(fs[..k], r)
    ensures Hit(fs, r)
  {
    hide Matches;
    var f :| f in fs[..k] && Matches(f, r);
    assert f in fs;
  }

  /** DeleteUser and DisableUser: a complete capture always restores the store. */
  lemma UserRollbackIsExact(s: Store, userID: string, captured: seq<Relationship>, k: nat)
    requires AllCanonical(s) && k <= |UserFilters(userID)|
    requires Elements(captured) == Captured(s, UserFilters(userID))
    ensures DeletedBy(UserPurged(userID)) == UserFilters(userID)
    ensures EventPlan(UserPurged(userID), captured) == Remove(UserFilters(userID))
    ensures RolledBack(s, UserPurged(userID), captured, k) == s
  {
    hide Canonical, RolledBack, EventPlan, UserFilters, Matches, Hit, Readable;
    var e := UserPurged(userID);
    RollbackExactIff(s, e, captured, k);
    forall r | r in s && Hit(DeletedBy(e)[..k], r)
      ensures r in captured
    {
      HitPrefix(UserFilters(userID), k, r);
      UserHitIsCaught(userID, r);
      assert r in Elements(captured);
    }
  }

  lemma UserHitIsCaught(userID: string, r: Relationship)
    requires Hit(UserFilters(userID), r)
    ensures Caught(UserFilters(userID), r)
  {
    hide Trim, Matches;
    var f :| f in UserFilters(userID) && Matches(f, r);
    assert forall i :: 0 <= i < |USER_RESOURCE_TYPES| ==> !Blank(USER_RESOURCE_TYPES[i]);
    assert Readable(f);
  }

  /** The tuples DeleteGroup cannot restore: the group is their subject and not
      their resource. */
  predicate Lost(group: string, r: Relationship) {
    && r.subject.typ == "group" && r.subject.id == group
    && !(r.resource.typ == "group" && r.resource.id == group)
  }

  lemma GroupFilterHits(orgID: string, groupID: string, r: Relationship)
    requires !Blank(groupID)
    ensures var fs, gid := GroupFilters(orgID, groupID), Trim(groupID);
      && |fs| == 3
      && (Hit(fs[..1], r) <==> r.resource.typ == "group" && r.resource.id == gid)
      && (Hit(fs[..2], r) <==> Hit(fs[..1], r) || (r.subject.typ == "group" && r.subject.id == gid))
      && (Hit(fs[..3], r) <==> Hit(fs[..2], r))
      && (Caught(fs, r) <==> Hit(fs[..1], r))
  {
    hide Trim;
    var fs, gid := GroupFilters(orgID, groupID), Trim(groupID);
    assert fs[..1] == [fs[0]] && fs[..2] == [fs[0], fs[1]] && fs[..3] == fs == [fs[0], fs[1], fs[2]];
    assert Matches(fs[0], r) <==> r.resource.typ == "group" && r.resource.id == gid;
    assert Matches(fs[1], r) <==> r.subject.typ == "group" && r.subject.id == gid;
    assert Readable(fs[0]) && !Readable(fs[1]) && !Readable(fs[2]);
  }

  /** DeleteGroup: until the subject filters run the rollback is exact; from then
      on it loses precisely the tuples of other objects that name the group as
      their subject. */
  lemma GroupRollback(s: Store, orgID: string, groupID: string, captured: seq<Relationship>, k: nat)
    requires !Blank(groupID) && AllCanonical(s) && k <= 3
    requires Elements(captured) == Captured(s, GroupFilters(orgID, groupID))
    ensures EventPlan(GroupDeleted(orgID, groupID), captured) == Remove(GroupFilters(orgID, groupID))
    ensures |GroupFilters(orgID, groupID)| == 3
    ensures RolledBack(s, GroupDeleted(orgID, groupID), captured, k)
         == if k <= 1 then s else set r | r in s && !Lost(Trim(groupID), r)
  {
    hide Canonical, RolledBack, EventPlan, GroupFilters, Hit, Caught, Trim;
    var e, fs := GroupDeleted(orgID, groupID), GroupFilters(orgID, groupID);
    assert DeletedBy(e) == fs;
    GroupFilterHits(orgID, groupID, PlatformEdge(""));
    RolledBackStore(s, e, captured, k);
    forall r
      ensures r in Remaining(s, fs[..k]) || r in captured
        <==> r in s && (k <= 1 || !Lost(Trim(groupID), r))
    {
      GroupFilterHits(orgID, groupID, r);
      assert r in captured <==> r in Elements(captured);
      if k == 0 { NothingHit(fs, r); }
    }
  }

  lemma NothingHit(fs: seq<Filter>, r: Relationship)
    ensures !Hit(fs[..0], r)
  {
  }

  /** Compensating a fully applied DeleteGroup keeps the parent/member mirror
      exactly when the group had neither a parent nor children in the store. */
  lemma GroupRollbackMirrorIff(s: Store, group: string)
    requires Mirrored(s)
    ensures Mirrored(set r | r in s && !Lost(group, r))
      <==> forall x :: x != group ==> ParentEdge(group, x) !in s && ParentEdge(x, group) !in s
  {
    hide Mirrored;
    var t := set r | r in s && !Lost(group, r);
    forall g, p
      ensures ParentEdge(g, p) in t <==> ParentEdge(g, p) in s && (p != group || g == group)
      ensures ChildEdge(p, g) in t <==> ChildEdge(p, g) in s && (g != group || p == group)
    {
      assert Lost(group, ParentEdge(g, p)) <==> p == group && g != group;
      assert Lost(group, ChildEdge(p, g)) <==> g == group && p != group;
    }
    MirrorLossIff(s, t, group);
  }

  lemma MirrorLossIff(s: Store, t: Store, group: string)
    requires Mirrored(s)
    requires forall g, p :: ParentEdge(g, p) in t <==> ParentEdge(g, p) in s && (p != group || g == group)
    requires forall g, p :: ChildEdge(p, g) in t <==> ChildEdge(p, g) in s && (g != group || p == group)
    ensures Mirrored(t) <==> forall x :: x != group ==> ParentEdge(group, x) !in s && ParentEdge(x, group) !in s
  {
    hide ParentEdge, ChildEdge;
  }
}
