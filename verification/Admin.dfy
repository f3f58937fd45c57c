/** authzProjectingIdentityAdmin: the identity provider decorated so that each
    change is projected through the dispatcher. */
module Admin {
  import opened Text
  import opened Relationships
  import opened Projection
  import opened Dispatcher
  import opened Directory
  import opened EventPlans
  import opened Rollback
  import opened Agreement
  import opened Operations

  class ProjectingIdentityAdmin {
    const projection: IdentityProjectionDispatcher
    const reader: RelationshipStore?
    var directory: Registry

    constructor (projection: IdentityProjectionDispatcher, reader: RelationshipStore?)
      ensures this.projection == projection && this.reader == reader && directory == map[]
    {
      this.projection, this.reader, directory := projection, reader, map[];
    }

    function Footprint(): set<object> {
      {projection, projection.writer} + if reader == null then {} else {reader}
    }

    /** Refused by the provider an operation changes nothing. Accepted, the
        directory changes, and the dispatcher goes through the operation's
        dispatches, after `readCalls` reads of its store for compensation data. */
    ghost predicate Outcome(op: Op, dir: Registry, w: World, captured: seq<Relationship>, readCalls: nat, ok: bool)
      reads this, projection, projection.writer
    {
      if !Accepted(dir, op) then !ok && directory == dir && projection.State() == w
      else
        && directory == DirectoryAfter(dir, op)
        && (projection.State(), ok)
            == Operate(projection.Environment(), w.(calls := w.calls + readCalls), dir, op, captured)
    }

    /** A direct success keeps the store healthy, as long as deleted groups are leaves. */
    lemma SuccessKeepsHealthy(op: Op, dir: Registry, w: World, captured: seq<Relationship>, readCalls: nat)
      requires Healthy(dir, w.tuples) && (op.DeleteGroup? ==> Leaf(dir, op.id))
      ensures Outcome(op, dir, w, captured, readCalls, true) && !projection.dtm ==>
        Healthy(directory, projection.writer.tuples)
    {
      hide Operate, Healthy, Accepted, DirectoryAfter, Leaf;
      if Accepted(dir, op) && !projection.dtm {
        DoneKeepsHealthy(projection.Environment(), w.(calls := w.calls + readCalls), dir, op, captured);
      }
    }

    method Create(id: string, org: string, parent: string, creator: Option<Principal>) returns (ok: bool)
      modifies this`directory, Footprint()
      ensures Outcome(CreateGroup(id, org, parent, creator), old(directory), old(projection.State()), [], 0, ok)
    {
      hide Dispatch, PayloadOf;
      var op := CreateGroup(id, org, parent, creator);
      if !Accepted(directory, op) { return false; }
      directory := DirectoryAfter(directory, op);
      var group := AsGroup(id, directory[id]);
      ok := projection.DispatchEvent(PayloadOf(GroupCreated(group, group, creator), []));
    }

    method Update(org: string, id: string, parent: string) returns (ok: bool)
      modifies this`directory, Footprint()
      ensures Outcome(UpdateGroup(org, id, parent), old(directory), old(projection.State()), [], 0, ok)
    {
      hide Dispatch, PayloadOf;
      var op := UpdateGroup(org, id, parent);
      if !Accepted(directory, op) { return false; }
      var oldGroup := AsGroup(id, directory[id]);
      directory := DirectoryAfter(directory, op);
      var group := AsGroup(id, directory[id]);
      ok := projection.DispatchEvent(PayloadOf(GroupDetached(oldGroup, group), []));
      if !ok { return; }
      ok := projection.DispatchEvent(PayloadOf(GroupAttached(group, group), []));
    }

    /** What was read before a delete: the stored tuples that its filters with a
        resource type select, all of them unless a read failed. */
    ghost predicate CapturedBy(filters: seq<Filter>, tuples: Store, captured: seq<Relationship>)
    {
      if reader == null then captured == []
      else AllCanonical(tuples) ==>
        && (exists k :: 0 <= k <= |filters| && Elements(captured) == Captured(tuples, filters[..k]))
        && ((forall c :: !reader.fails(c)) ==> Elements(captured) == Captured(tuples, filters))
    }

    method Delete(org: string, id: string) returns (ok: bool, ghost captured: seq<Relationship>, ghost readCalls: nat)
      modifies this`directory, Footprint()
      ensures Outcome(DeleteGroup(org, id), old(directory), old(projection.State()), captured, readCalls, ok)
      ensures Accepted(old(directory), DeleteGroup(org, id)) ==>
        CapturedBy(GroupFilters(org, id), old(if reader == null then {} else reader.tuples), captured)
    {
      hide Dispatch, PayloadOf;
      var op := DeleteGroup(org, id);
      captured, readCalls := [], 0;
      if !Accepted(directory, op) { return false, [], 0; }
      directory := DirectoryAfter(directory, op);
      DeleteFilters(org, id, "");
      ok, captured, readCalls := ProjectDelete(GroupDeleted(org, id));
    }

    method Assign(org: string, id: string, user: string) returns (ok: bool)
      modifies this`directory, Footprint()
      ensures Outcome(AssignUser(org, id, user), old(directory), old(projection.State()), [], 0, ok)
    {
      hide Dispatch, PayloadOf;
      var op := AssignUser(org, id, user);
      if !Accepted(directory, op) { return false; }
      directory := DirectoryAfter(directory, op);
      ok := projection.DispatchEvent(PayloadOf(MemberAssigned(org, id, user), []));
    }

    method Remove(org: string, id: string, user: string) returns (ok: bool)
      modifies this`directory, Footprint()
      ensures Outcome(RemoveUser(org, id, user), old(directory), old(projection.State()), [], 0, ok)
    {
      hide Dispatch, PayloadOf;
      var op := RemoveUser(org, id, user);
      if !Accepted(directory, op) { return false; }
      directory := DirectoryAfter(directory, op);
      var last := !InSomeGroup(directory, org, user);
      ok := projection.DispatchEvent(PayloadOf(MemberRemoved(org, id, user, last), []));
    }

    method Purge(user: string) returns (ok: bool, ghost captured: seq<Relationship>, ghost readCalls: nat)
      modifies this`directory, Footprint()
      ensures Outcome(DeleteUser(user), old(directory), old(projection.State()), captured, readCalls, ok)
      ensures Accepted(old(directory), DeleteUser(user)) ==>
        CapturedBy(UserFilters(user), old(if reader == null then {} else reader.tuples), captured)
    {
      hide Dispatch, PayloadOf;
      var op := DeleteUser(user);
      captured, readCalls := [], 0;
      if !Accepted(directory, op) { return false, [], 0; }
      directory := DirectoryAfter(directory, op);
      DeleteFilters("", "", user);
      ok, captured, readCalls := ProjectDelete(UserPurged(user));
    }

    /** Capture, then dispatch with what was captured, even if a read failed. */
    method ProjectDelete(e: Event) returns (ok: bool, ghost captured: seq<Relationship>, ghost readCalls: nat)
      requires !IsWrite(e)
      modifies Footprint()
      ensures var w := old(projection.State());
        (projection.State(), ok)
            == Dispatch(projection.Environment(), w.(calls := w.calls + readCalls), PayloadOf(e, captured))
      ensures CapturedBy(DeletedBy(e), old(if reader == null then {} else reader.tuples), captured)
    {
      hide Dispatch, PayloadOf;
      ghost var w := projection.State();
      var filters := DeletedBy(e);
      ghost var reached: nat;
      var rels, done;
      rels, done, reached := CaptureRelationships(reader, filters);
      assert filters[..|filters|] == filters;
      captured := rels;
      readCalls := projection.writer.calls - w.calls;
      assert projection.State() == w.(calls := w.calls + readCalls);
      ok := projection.DispatchEvent(PayloadOf(e, rels));
    }
  }

  lemma DeleteFilters(org: string, id: string, user: string)
    ensures DeletedBy(GroupDeleted(org, id)) == GroupFilters(org, id)
    ensures DeletedBy(UserPurged(user)) == UserFilters(user)
  {
  }
}
