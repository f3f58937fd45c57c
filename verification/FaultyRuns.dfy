/** Directory operations, retries and faults together: when does the store that
    the retries bring about agree with the directory? */
module FaultyRuns {
  import opened Text
  import opened Relationships
  import opened Projection
  import opened Delivery
  import opened DispatchOrder
  import opened Dispatcher
  import opened DispatcherRuns
  import opened Recovery
  import opened Directory
  import opened EventPlans
  import opened Mirror
  import opened Agreement
  import opened Operations

  /** An operation comes with its compensation data and the store reads that
      took; store calls fail when the environment says so. */
  datatype Act =
    | Operation(op: Op, captured: seq<Relationship>, readCalls: nat)
    | Retry(limit: int)
    | Wait(seconds: nat)

  /** `torn` are the groups whose last update stopped between its two events. */
  datatype Service = Service(dir: Registry, world: World, torn: set<string>)

  function Start(dir: Registry, s: Store): Service {
    Service(dir, Fresh(s), {})
  }

  ghost predicate FirstFails(env: Env, v: Service, act: Act)
    requires act.Operation? && Accepted(v.dir, act.op)
  {
    !Dispatch(env, Begun(v.world, act), PayloadOf(EventsOf(v.dir, act.op)[0].event, act.captured)).1
  }

  function Begun(w: World, act: Act): World
    requires act.Operation?
  {
    w.(calls := w.calls + act.readCalls)
  }

  ghost function TornAfter(env: Env, v: Service, act: Act): set<string>
    requires act.Operation? && Accepted(v.dir, act.op)
  {
    match act.op
    case UpdateGroup(_, id, _) => if FirstFails(env, v, act) then v.torn + {id} else v.torn - {id}
    case DeleteGroup(_, id) => v.torn - {id}
    case _ => v.torn
  }

  ghost function Acted(env: Env, v: Service, act: Act): Service {
    match act
    case Operation(op, captured, _) =>
      if !Accepted(v.dir, op) then v
      else
        var world := Operate(env, Begun(v.world, act), v.dir, op, captured).0;
        Service(DirectoryAfter(v.dir, op), world, TornAfter(env, v, act))
    case Retry(limit) => v.(world := RetryOnce(env, v.world, limit).0)
    case Wait(seconds) => v.(world := v.world.(clock := v.world.clock + seconds))
  }

  ghost function Served(env: Env, v: Service, acts: seq<Act>): Service {
    if acts == [] then v else Acted(env, Served(env, v, acts[..|acts| - 1]), acts[|acts| - 1])
  }

  /** Deleted groups are leaves; what another delete does is known. */
  ghost predicate LeafDelete(v: Service, act: Act) {
    act.Operation? && act.op.DeleteGroup? && Accepted(v.dir, act.op) ==> Leaf(v.dir, act.op.id)
  }

  ghost predicate LeafDeletes(env: Env, v: Service, acts: seq<Act>) {
    forall i :: 0 <= i < |acts| ==> LeafDelete(Served(env, v, acts[..i]), acts[i])
  }

  // ---------- the events in dispatch order ----------

  /** The store that the recorded events give one after the other. */
  ghost function Ordered(s: Store, w: World): Store {
    InOrder(s, Plans(w.rows))
  }

  lemma SamePayloads(s: Store, w: World, t: World)
    requires |w.rows| == |t.rows| && forall i :: 0 <= i < |w.rows| ==> w.rows[i].payload == t.rows[i].payload
    ensures Plans(t.rows) == Plans(w.rows) && Ordered(s, t) == Ordered(s, w)
  {
    hide ApplyPlan, InOrder;
  }

  lemma RecordedPlan(s: Store, w: World, t: World, q: Payload)
    requires |t.rows| == |w.rows| + 1 && t.rows[|w.rows|].payload == q
    requires forall i :: 0 <= i < |w.rows| ==> t.rows[i].payload == w.rows[i].payload
    ensures Ordered(s, t) == Full(Ordered(s, w), ApplyPlan(q))
  {
    hide ApplyPlan, Full;
    assert Plans(t.rows)[..|w.rows|] == Plans(w.rows);
  }

  /** A dispatch puts its whole event at the end, whether it succeeds or not. */
  lemma DispatchOrdered(env: Env, s: Store, w: World, p: Payload)
    requires !env.dtm
    ensures Ordered(s, Dispatch(env, w, p).0) == Full(Ordered(s, w), ApplyPlan(Normalize(p)))
  {
    hide Run, Normalize, ApplyPlan, Ordered, Full;
    var q := Normalize(p);
    if Empty(q) {
      EmptyPlan(Ordered(s, w), q);
    } else {
      RecordedPlan(s, w, Dispatch(env, w, p).0, q);
    }
  }

  lemma EventOrdered(env: Env, s: Store, w: World, e: Event, captured: seq<Relationship>)
    requires !env.dtm
    ensures Ordered(s, Dispatch(env, w, PayloadOf(e, captured)).0) == Apply(Ordered(s, w), e)
  {
    hide Dispatch, PayloadOf, Normalize, ApplyPlan, Ordered, Full;
    DispatchOrdered(env, s, w, PayloadOf(e, captured));
    CapturedIrrelevant(e, captured);
  }

  lemma EventsShape(dir: Registry, op: Op)
    requires Accepted(dir, op)
    ensures var events := EventsOf(dir, op);
      if op.UpdateGroup? then events == [Done(events[0].event), Done(events[1].event)]
          else events == [Done(events[0].event)]
  {
  }

  /** What an accepted operation adds to the ordered store: all of it, or, if its
      first of two events was not applied at once, that first event. */
  lemma OperationOrdered(env: Env, s: Store, v: Service, act: Act)
    requires !env.dtm && act.Operation? && Accepted(v.dir, act.op)
    ensures var before, after := Ordered(s, v.world), Ordered(s, Acted(env, v, act).world);
      if act.op.UpdateGroup? && FirstFails(env, v, act) then after == Apply(before, EventsOf(v.dir, act.op)[0].event)
      else after == StoreAfter(v.dir, before, act.op)
  {
    hide Dispatch, PayloadOf, Apply, Ordered, EventsOf, Accepted, AfterAll;
    var w := Begun(v.world, act);
    var before := Ordered(s, v.world);
    SamePayloads(s, v.world, w);
    var events := EventsOf(v.dir, act.op);
    EventsShape(v.dir, act.op);
    EventOrdered(env, s, w, events[0].event, act.captured);
    if |events| == 1 {
      OneEvent(before, events[0].event);
    } else {
      var first := Dispatch(env, w, PayloadOf(events[0].event, act.captured));
      EventOrdered(env, s, first.0, events[1].event, act.captured);
      TwoEvents(before, events[0].event, events[1].event);
    }
  }

  lemma RetryOrdered(env: Env, s: Store, v: Service, limit: int)
    ensures Ordered(s, Acted(env, v, Retry(limit)).world) == Ordered(s, v.world)
  {
    hide RetryRows, Ordered;
    var at := Selected(v.world.rows, v.world.clock, limit);
    RetryRowsTouch(env, v.world, at);
    SamePayloads(s, v.world, RetryRows(env, v.world, at).0);
  }

  // ---------- the ordered store agrees, up to torn groups ----------

  /** What the first event of an update deletes. */
  predicate Detached(g: string, r: Relationship) {
    r.resource.typ == "group" && (
      || (r.resource.id == g && (r.relation == "zone" || r.relation == "parent"))
      || (r.relation == "member" && r.subject == SubjectRef("group", g, "member")))
  }

  ghost predicate Torn(torn: set<string>, r: Relationship) {
    exists g :: g in torn && Detached(g, r)
  }

  lemma DetachedSource(g: string, r: Relationship)
    requires Detached(g, r)
    ensures Source(r) == g && forall rec :: !MembersHave(g, rec, r)
  {
    RelationsDiffer();
    assert "user" != "group" by { assert |"user"| != |"group"|; }
  }

  lemma TopologyDetached(g: string, rec: Record, r: Relationship)
    requires TopologyHas(g, rec, r)
    ensures Detached(g, r)
  {
  }

  ghost predicate OrderedAgrees(dir: Registry, t: Store, torn: set<string>) {
    && GoodRegistry(dir) && ZoneMembersHeld(dir, t)
    && (forall r :: IsIndexed(r) && !Torn(torn, r) ==> (r in t <==> InProjection(dir, r)))
    && (forall g :: g in torn ==> g in dir && ZoneEdge(g, dir[g].org) !in t)
  }

  /** The ordered store agrees with the directory exactly when no group is torn. */
  lemma OrderedHealthyIff(dir: Registry, t: Store, torn: set<string>)
    requires OrderedAgrees(dir, t, torn)
    ensures Healthy(dir, t) <==> torn == {}
    ensures Agrees(dir, t) <==> torn == {}
  {
    hide InProjection, GoodRegistry, ZoneMembersHeld;
    if torn != {} {
      var g :| g in torn;
      TornMissing(dir, g);
      assert ZoneEdge(g, dir[g].org) !in t;
    }
  }

  lemma TornMissing(dir: Registry, g: string)
    requires g in dir
    ensures IsIndexed(ZoneEdge(g, dir[g].org)) && InProjection(dir, ZoneEdge(g, dir[g].org))
  {
    assert Has(g, dir[g], ZoneEdge(g, dir[g].org));
  }

  /** The first event of an update, alone. */
  lemma DetachOnly(dir: Registry, t: Store, op: Op, r: Relationship)
    requires op.UpdateGroup? && Accepted(dir, op) && GoodRegistry(dir)
    ensures r in Apply(t, EventsOf(dir, op)[0].event) <==> r in t && !Detached(op.id, r)
  {
    hide Apply, CleanID;
    KeepsGood(dir, op);
    DetachApplied(t, op.id, dir[op.id], DirectoryAfter(dir, op)[op.id], r);
  }

  lemma UpdateKeepsRest(dir: Registry, op: Op, r: Relationship)
    requires op.UpdateGroup? && Accepted(dir, op) && !Detached(op.id, r)
    ensures InProjection(DirectoryAfter(dir, op), r) <==> InProjection(dir, r)
  {
    hide TopologyHas, Detached;
    var dir' := DirectoryAfter(dir, op);
    ProjectionIsLocal(dir, r);
    ProjectionIsLocal(dir', r);
    if TopologyHas(op.id, dir[op.id], r) { TopologyDetached(op.id, dir[op.id], r); }
    if TopologyHas(op.id, dir'[op.id], r) { TopologyDetached(op.id, dir'[op.id], r); }
  }

  lemma TearKeeps(dir: Registry, t: Store, torn: set<string>, op: Op)
    requires OrderedAgrees(dir, t, torn) && op.UpdateGroup? && Accepted(dir, op)
    ensures OrderedAgrees(DirectoryAfter(dir, op), Apply(t, EventsOf(dir, op)[0].event), torn + {op.id})
  {
    hide Apply, GoodRegistry, IsIndexed, InProjection, Detached, ZoneMemberEdge, ZoneEdge;
    var dir', t' := DirectoryAfter(dir, op), Apply(t, EventsOf(dir, op)[0].event);
    KeepsGood(dir, op);
    forall r | IsIndexed(r) && !Torn(torn + {op.id}, r)
      ensures r in t' <==> InProjection(dir', r)
    {
      assert op.id in torn + {op.id} && !Detached(op.id, r);
      assert !Torn(torn, r);
      DetachOnly(dir, t, op, r);
      UpdateKeepsRest(dir, op, r);
    }
    forall g | g in torn + {op.id}
      ensures g in dir' && ZoneEdge(g, dir'[g].org) !in t'
    {
      DetachOnly(dir, t, op, ZoneEdge(g, dir'[g].org));
      ZoneDetached(g, dir'[g].org);
    }
    forall g, u | g in dir' && u in dir'[g].members
      ensures ZoneMemberEdge(dir'[g].org, u) in t'
    {
      DetachOnly(dir, t, op, ZoneMemberEdge(dir'[g].org, u));
      ZoneDetached(op.id, dir'[g].org);
      ZoneMemberKept(op.id, dir'[g].org, u);
    }
  }

  lemma ZoneDetached(g: string, org: string)
    ensures Detached(g, ZoneEdge(g, org))
  {
  }

  lemma ZoneMemberKept(g: string, org: string, u: string)
    ensures !Detached(g, ZoneMemberEdge(org, u))
  {
    assert "zone" != "group" by { assert |"zone"| != |"group"|; }
  }

  ghost function TornBy(torn: set<string>, op: Op): set<string> {
    match op
    case UpdateGroup(_, id, _) => torn - {id}
    case DeleteGroup(_, id) => torn - {id}
    case _ => torn
  }

  /** A whole operation mends the group it updates or deletes. */
  lemma MendedTuple(dir: Registry, t: Store, op: Op, r: Relationship)
    requires Accepted(dir, op) && GoodRegistry(dir) && (op.UpdateGroup? || op.DeleteGroup?)
    requires Detached(op.id, r)
    ensures r in StoreAfter(dir, t, op) <==> InProjection(DirectoryAfter(dir, op), r)
  {
    hide StoreAfter, TopologyHas, GoodRegistry;
    var dir' := DirectoryAfter(dir, op);
    DetachedSource(op.id, r);
    ProjectionIsLocal(dir', r);
    if op.UpdateGroup? {
      UpdateStore(dir, t, op, r);
    } else {
      DeleteStore(dir, t, op, r);
    }
  }

  lemma ZoneEdgeNotAdded(dir: Registry, t: Store, op: Op, g: string, org: string)
    requires Accepted(dir, op) && GoodRegistry(dir) && g in dir && ZoneEdge(g, org) !in t
    requires !(op.UpdateGroup? && op.id == g)
    ensures ZoneEdge(g, org) !in StoreAfter(dir, t, op)
  {
    hide Apply, GoodRegistry, TopologyHas, CleanID;
    var r := ZoneEdge(g, org);
    ZoneEdgeSource(g, org);
    match op
    case CreateGroup(id, _, _, creator) =>
      var rec := DirectoryAfter(dir, op)[id];
      OneEvent(t, GroupCreated(AsGroup(id, rec), AsGroup(id, rec), creator));
      CreateApplied(t, id, rec, creator, r);
      if TopologyHas(id, rec, r) { HasAtSource(id, rec, r); }
    case UpdateGroup(_, id, _) =>
      UpdateStore(dir, t, op, r);
      if TopologyHas(id, DirectoryAfter(dir, op)[id], r) { HasAtSource(id, DirectoryAfter(dir, op)[id], r); }
    case DeleteGroup(_, _) => DeleteStore(dir, t, op, r);
    case AssignUser(_, id, user) =>
      assert GoodID(op.org) by { GoodOrg(dir, id); }
      assert GoodID(id) by { GoodOrg(dir, id); }
      OneEvent(t, MemberAssigned(op.org, id, user));
      AssignApplied(t, op.org, id, user, r);
    case RemoveUser(_, _, _) => RemoveStore(dir, t, op, r);
    case DeleteUser(_) => PurgeStore(dir, t, op, r);
  }

  lemma GoodOrg(dir: Registry, g: string)
    requires GoodRegistry(dir) && g in dir
    ensures GoodID(g) && GoodID(dir[g].org)
  {
    RecordParts(dir[g]);
  }

  lemma ZoneEdgeSource(g: string, org: string)
    ensures Source(ZoneEdge(g, org)) == g && IsIndexed(ZoneEdge(g, org))
    ensures forall a, b :: ZoneEdge(g, org) != UserEdge(a, b) && ZoneEdge(g, org) != ZoneMemberEdge(a, b)
  {
    RelationsDiffer();
  }

  lemma WholeKeeps(dir: Registry, t: Store, torn: set<string>, op: Op)
    requires OrderedAgrees(dir, t, torn) && Accepted(dir, op) && (op.DeleteGroup? ==> Leaf(dir, op.id))
    ensures OrderedAgrees(DirectoryAfter(dir, op), StoreAfter(dir, t, op), TornBy(torn, op))
  {
    hide StoreAfter, GoodRegistry, IsIndexed, InProjection, Detached, ZoneMemberEdge, ZoneEdge, Leaf;
    var dir', t' := DirectoryAfter(dir, op), StoreAfter(dir, t, op);
    KeepsGood(dir, op);
    forall r | IsIndexed(r) && !Torn(TornBy(torn, op), r)
      ensures r in t' <==> InProjection(dir', r)
    {
      if Torn(torn, r) {
        var g :| g in torn && Detached(g, r);
        assert g !in TornBy(torn, op);
        MendedTuple(dir, t, op, r);
      } else {
        OperationIndexed(dir, t, op, r);
      }
    }
    forall g | g in TornBy(torn, op)
      ensures g in dir' && ZoneEdge(g, dir'[g].org) !in t'
    {
      ZoneEdgeNotAdded(dir, t, op, g, dir[g].org);
    }
    forall g, u | g in dir' && u in dir'[g].members
      ensures ZoneMemberEdge(dir'[g].org, u) in t'
    {
      OperationZone(dir, t, op, g, u);
    }
  }

  lemma ActKeepsOrdered(env: Env, s: Store, v: Service, act: Act)
    requires !env.dtm && LeafDelete(v, act)
    requires OrderedAgrees(v.dir, Ordered(s, v.world), v.torn)
    ensures var u := Acted(env, v, act); OrderedAgrees(u.dir, Ordered(s, u.world), u.torn)
  {
    hide OrderedAgrees, Ordered, Operate, Accepted, DirectoryAfter, StoreAfter, Apply, FirstFails, RetryOnce;
    var u := Acted(env, v, act);
    match act
    case Retry(limit) => RetryOrdered(env, s, v, limit);
    case Wait(_) => SamePayloads(s, v.world, u.world);
    case Operation(op, _, _) =>
      if Accepted(v.dir, op) {
        OperationOrdered(env, s, v, act);
        if op.UpdateGroup? && FirstFails(env, v, act) {
          TearKeeps(v.dir, Ordered(s, v.world), v.torn, op);
        } else {
          WholeKeeps(v.dir, Ordered(s, v.world), v.torn, op);
        }
      }
  }

  lemma {:induction false} EveryRunOrdered(env: Env, s: Store, dir: Registry, acts: seq<Act>)
    requires !env.dtm && Healthy(dir, s) && LeafDeletes(env, Start(dir, s), acts)
    ensures var v := Served(env, Start(dir, s), acts); OrderedAgrees(v.dir, Ordered(s, v.world), v.torn)
    decreases |acts|
  {
    hide OrderedAgrees, Acted, LeafDelete;
    if acts == [] {
      HealthyStart(dir, s);
    } else {
      var n := |acts| - 1;
      assert forall i :: 0 <= i < n ==> acts[..n][..i] == acts[..i];
      EveryRunOrdered(env, s, dir, acts[..n]);
      ActKeepsOrdered(env, s, Served(env, Start(dir, s), acts[..n]), acts[n]);
    }
  }

  lemma HealthyStart(dir: Registry, s: Store)
    requires Healthy(dir, s)
    ensures OrderedAgrees(dir, Ordered(s, Fresh(s)), {})
  {
    hide GoodRegistry, ZoneMembersHeld, IsIndexed, InProjection;
  }

  // ---------- the acts as dispatcher steps ----------

  ghost function StepsOf(env: Env, v: Service, act: Act): seq<Step> {
    match act
    case Retry(limit) => [Retrying(limit)]
    case Wait(seconds) => [Waiting(seconds)]
    case Operation(op, captured, readCalls) =>
      if !Accepted(v.dir, op) then []
      else
        var events := EventsOf(v.dir, op);
        var first := [Reading(readCalls), Dispatching(PayloadOf(events[0].event, captured))];
        if |events| == 1 || FirstFails(env, v, act) then first
        else first + [Dispatching(PayloadOf(events[1].event, captured))]
  }

  ghost function Trace(env: Env, v: Service, acts: seq<Act>): seq<Step> {
    if acts == [] then []
    else
      var n := |acts| - 1;
      Trace(env, v, acts[..n]) + StepsOf(env, Served(env, v, acts[..n]), acts[n])
  }

  lemma AfterOne(env: Env, w: World, steps: seq<Step>, step: Step)
    ensures AfterRun(env, w, steps + [step]) == Next(env, AfterRun(env, w, steps), step)
  {
    hide Next;
    assert (steps + [step])[..|steps|] == steps;
  }

  lemma ActIsSteps(env: Env, w: World, steps: seq<Step>, v: Service, act: Act)
    requires AfterRun(env, w, steps) == v.world
    ensures AfterRun(env, w, steps + StepsOf(env, v, act)) == Acted(env, v, act).world
  {
    hide AfterRun, Dispatch, PayloadOf, RetryOnce;
    match act
    case Retry(limit) => AfterOne(env, w, steps, Retrying(limit));
    case Wait(seconds) => AfterOne(env, w, steps, Waiting(seconds));
    case Operation(op, captured, readCalls) =>
      if Accepted(v.dir, op) {
        var events := EventsOf(v.dir, op);
        var a, b := Reading(readCalls), Dispatching(PayloadOf(events[0].event, captured));
        AfterOne(env, w, steps, a);
        AfterOne(env, w, steps + [a], b);
        assert steps + [a, b] == steps + [a] + [b];
        if |events| != 1 && !FirstFails(env, v, act) {
          var c := Dispatching(PayloadOf(events[1].event, captured));
          AfterOne(env, w, steps + [a] + [b], c);
          assert steps + ([a, b] + [c]) == steps + [a] + [b] + [c];
        }
      } else {
        assert steps + [] == steps;
      }
  }

  lemma {:induction false} RunIsSteps(env: Env, s: Store, dir: Registry, acts: seq<Act>)
    ensures AfterRun(env, Fresh(s), Trace(env, Start(dir, s), acts)) == Served(env, Start(dir, s), acts).world
    ensures DirectSteps(Trace(env, Start(dir, s), acts))
    decreases |acts|
  {
    hide Acted, StepsOf, AfterRun;
    if acts == [] {
      NoSteps(env, Fresh(s));
    } else {
      var n := |acts| - 1;
      RunIsSteps(env, s, dir, acts[..n]);
      var v := Served(env, Start(dir, s), acts[..n]);
      ActIsSteps(env, Fresh(s), Trace(env, Start(dir, s), acts[..n]), v, acts[n]);
      StepsAreDirect(env, v, acts[n]);
    }
  }

  lemma NoSteps(env: Env, w: World)
    ensures AfterRun(env, w, []) == w
  {
  }

  lemma StepsAreDirect(env: Env, v: Service, act: Act)
    ensures DirectSteps(StepsOf(env, v, act))
  {
    hide PayloadOf, FirstFails;
  }

  // ---------- when everything is synced ----------

  ghost predicate AllSynced(w: World) {
    forall i :: 0 <= i < |w.rows| ==> w.rows[i].status == Synced
  }

  lemma {:induction false} LastAttemptIs(log: seq<Entry>, i: nat)
    ensures var k := LastAt(Attempts(log), i);
      Last(log, i) == if k < 0 then None else Some(log[k])
    decreases |log|
  {
    if log != [] {
      var n := |log| - 1;
      LastAttemptIs(log[..n], i);
      assert Attempts(log)[..n] == Attempts(log[..n]);
    }
  }

  /** In a direct run whose events are all synced, every last attempt was complete. */
  lemma SyncedIsLastComplete(s: Store, w: World)
    requires Good(s, w) && Direct(w) && AllSynced(w)
    ensures LastComplete(Plans(w.rows), Attempts(w.log))
    ensures w.tuples == Deliver(s, Plans(w.rows), Attempts(w.log))
  {
    hide ApplyPlan, LastAt, Last;
    ReplayIsDelivery(s, w.rows, w.log);
    forall i | 0 <= i < |w.rows|
      ensures LastAt(Attempts(w.log), i) >= 0
      ensures Complete(Plans(w.rows), Attempts(w.log)[LastAt(Attempts(w.log), i)])
    {
      assert DirectRow(w.rows[i], i, w.log);
      LastAttemptIs(w.log, i);
    }
  }

  ghost predicate IndexedWinners(w: World) {
    forall r :: IsIndexed(r) && Contested(Plans(w.rows), r) ==> SameWinner(Plans(w.rows), Attempts(w.log), r)
  }

  ghost predicate AllWinners(w: World) {
    forall r :: Contested(Plans(w.rows), r) ==> SameWinner(Plans(w.rows), Attempts(w.log), r)
  }

  /** Tuple by tuple, the store of such a run is the ordered one, up to winners. */
  lemma SyncedTuples(env: Env, s: Store, dir: Registry, acts: seq<Act>)
    requires !env.dtm && AllSynced(Served(env, Start(dir, s), acts).world)
    ensures var w := Served(env, Start(dir, s), acts).world;
      forall r :: (r in w.tuples <==> r in Ordered(s, w))
        <==> (Contested(Plans(w.rows), r) ==> SameWinner(Plans(w.rows), Attempts(w.log), r))
  {
    hide Served, Good, Direct, Deliver, InOrder, Plans, Attempts, AfterRun, Trace;
    var w := Served(env, Start(dir, s), acts).world;
    RunIsSteps(env, s, dir, acts);
    EveryRunIsGood(env, s, Trace(env, Start(dir, s), acts));
    EveryDirectRun(env, s, Trace(env, Start(dir, s), acts));
    SyncedIsLastComplete(s, w);
    forall r
      ensures (r in w.tuples <==> r in Ordered(s, w))
        <==> (Contested(Plans(w.rows), r) ==> SameWinner(Plans(w.rows), Attempts(w.log), r))
    {
      InOrderIff(s, Plans(w.rows), Attempts(w.log), r);
    }
  }

  /** A run with faults whose events are all synced in the end. If no group is
      torn, the store agrees with the directory exactly when every contested
      group tuple was won by the write or delete that was also dispatched last;
      if all contested tuples were, the store is healthy exactly when no group
      is torn. */
  lemma SyncedServiceAgreesIff(env: Env, s: Store, dir: Registry, acts: seq<Act>)
    requires !env.dtm && Healthy(dir, s) && LeafDeletes(env, Start(dir, s), acts)
    requires AllSynced(Served(env, Start(dir, s), acts).world)
    ensures var v := Served(env, Start(dir, s), acts);
      && (v.torn == {} ==> (Agrees(v.dir, v.world.tuples) <==> IndexedWinners(v.world)))
      && (AllWinners(v.world) ==> (Healthy(v.dir, v.world.tuples) <==> v.torn == {}))
  {
    hide Served, LeafDeletes, Ordered, Plans, Attempts, IsIndexed, InProjection, Healthy, OrderedAgrees, Contested,
        SameWinner;
    var v := Served(env, Start(dir, s), acts);
    SyncedTuples(env, s, dir, acts);
    EveryRunOrdered(env, s, dir, acts);
    OrderedHealthyIff(v.dir, Ordered(s, v.world), v.torn);
    if AllWinners(v.world) {
      assert v.world.tuples == Ordered(s, v.world);
    }
  }

  /** In particular when conflicting events were last attempted in the order of
      their dispatch. */
  lemma ConflictsInOrderWin(w: World)
    requires LastComplete(Plans(w.rows), Attempts(w.log)) && ConflictsInOrder(Plans(w.rows), Attempts(w.log))
    ensures AllWinners(w)
  {
    ConflictsInOrderSettle({}, Plans(w.rows), Attempts(w.log));
  }

  // ---------- recovery ----------

  lemma EventSupported(e: Event, captured: seq<Relationship>)
    ensures EventPlan(e, captured) != Unsupported
  {
    hide Trim;
    OperationsDiffer();
  }

  lemma DispatchSupported(env: Env, w: World, e: Event, captured: seq<Relationship>)
    requires !env.dtm && AllSupported(w)
    ensures AllSupported(Dispatch(env, w, PayloadOf(e, captured)).0)
  {
    hide Run, Normalize, ApplyPlan, PayloadOf;
    EventSupported(e, captured);
  }

  lemma ActSupported(env: Env, v: Service, act: Act)
    requires !env.dtm && AllSupported(v.world)
    ensures AllSupported(Acted(env, v, act).world)
  {
    hide Dispatch, PayloadOf, RetryRows, ApplyPlan;
    match act
    case Wait(_) =>
    case Retry(limit) => RetryRowsTouch(env, v.world, Selected(v.world.rows, v.world.clock, limit));
    case Operation(op, captured, _) =>
      if Accepted(v.dir, op) {
        var w, events := Begun(v.world, act), EventsOf(v.dir, op);
        DispatchSupported(env, w, events[0].event, captured);
        if |events| > 1 {
          DispatchSupported(env, Dispatch(env, w, PayloadOf(events[0].event, captured)).0, events[1].event, captured);
        }
      }
  }

  lemma {:induction false} RunSupported(env: Env, s: Store, dir: Registry, acts: seq<Act>)
    requires !env.dtm
    ensures AllSupported(Served(env, Start(dir, s), acts).world)
    decreases |acts|
  {
    hide Acted;
    if acts != [] {
      var n := |acts| - 1;
      RunSupported(env, s, dir, acts[..n]);
      ActSupported(env, Served(env, Start(dir, s), acts[..n]), acts[n]);
    }
  }

  function RetryActs(limit: int, n: nat): (acts: seq<Act>)
    ensures |acts| == n && forall k :: 0 <= k < n ==> acts[k] == Retry(limit)
  {
    seq(n, k => Retry(limit))
  }

  lemma {:induction false} RetriesServed(env: Env, v: Service, acts: seq<Act>, limit: int, n: nat)
    ensures var u := Served(env, v, acts);
      Served(env, v, acts + RetryActs(limit, n)) == u.(world := RetryTimes(env, u.world, limit, n))
    decreases n
  {
    hide RetryOnce;
    var all := acts + RetryActs(limit, n);
    if n == 0 {
      assert all == acts;
    } else {
      assert all[..|all| - 1] == acts + RetryActs(limit, n - 1);
      RetriesServed(env, v, acts, limit, n - 1);
    }
  }

  lemma {:induction false} MoreLeafDeletes(env: Env, v: Service, acts: seq<Act>, more: seq<Act>)
    requires LeafDeletes(env, v, acts) && forall k :: 0 <= k < |more| ==> !more[k].Operation?
    ensures LeafDeletes(env, v, acts + more)
  {
    hide Served;
    forall i | 0 <= i < |acts + more|
      ensures LeafDelete(Served(env, v, (acts + more)[..i]), (acts + more)[i])
    {
      if i < |acts| {
        assert (acts + more)[..i] == acts[..i];
      }
    }
  }

  lemma WaitServed(env: Env, s: Store, dir: Registry, acts: seq<Act>)
    ensures var v, w := Served(env, Start(dir, s), acts), Served(env, Start(dir, s), acts + [Wait(MINUTE)]);
      && w.dir == v.dir && w.torn == v.torn
      && DirectSteps(Trace(env, Start(dir, s), acts))
      && w.world == AfterRun(env, Fresh(s), Trace(env, Start(dir, s), acts) + [Waiting(MINUTE)])
  {
    hide AfterRun, Trace;
    assert (acts + [Wait(MINUTE)])[..|acts|] == acts;
    RunIsSteps(env, s, dir, acts);
    AfterOne(env, Fresh(s), Trace(env, Start(dir, s), acts), Waiting(MINUTE));
  }

  /** A minute after the store stops failing, ceil(due / limit) retries sync every
      event of the run, and change neither directory nor torn groups. */
  lemma RetriesSyncService(env: Env, s: Store, dir: Registry, acts: seq<Act>, limit: int, n: nat)
    requires !env.dtm
    requires var w := Served(env, Start(dir, s), acts + [Wait(MINUTE)]).world;
      NoMoreFaults(env, w) && |DueSet(w)| <= n * Limit(limit)
    ensures var v := Served(env, Start(dir, s), acts);
      var u := Served(env, Start(dir, s), acts + [Wait(MINUTE)] + RetryActs(limit, n));
      u.dir == v.dir && u.torn == v.torn && AllSynced(u.world)
  {
    hide Served, AfterRun, RetryTimes, NoMoreFaults, AllSupported, Trace, DueSet, Plans, Settled, NoConflict;
    var start := Start(dir, s);
    var waited := acts + [Wait(MINUTE)];
    var steps := Trace(env, start, acts);
    WaitServed(env, s, dir, acts);
    RunSupported(env, s, dir, waited);
    EveryRunRecovers(env, s, steps, limit, n);
    RetriesServed(env, start, waited, limit, n);
  }

  /** And then the store agrees with the directory under exactly those conditions. */
  lemma RecoveredServiceAgreesIff(env: Env, s: Store, dir: Registry, acts: seq<Act>, limit: int, n: nat)
    requires !env.dtm && Healthy(dir, s) && LeafDeletes(env, Start(dir, s), acts)
    requires var w := Served(env, Start(dir, s), acts + [Wait(MINUTE)]).world;
      NoMoreFaults(env, w) && |DueSet(w)| <= n * Limit(limit)
    ensures var v := Served(env, Start(dir, s), acts);
      var u := Served(env, Start(dir, s), acts + [Wait(MINUTE)] + RetryActs(limit, n));
      && u.dir == v.dir && u.torn == v.torn && AllSynced(u.world)
      && (v.torn == {} ==> (Agrees(v.dir, u.world.tuples) <==> IndexedWinners(u.world)))
      && (AllWinners(u.world) ==> (Healthy(v.dir, u.world.tuples) <==> v.torn == {}))
  {
    hide Served, Healthy, Agrees, IndexedWinners, AllWinners, LeafDeletes, NoMoreFaults, DueSet;
    var more := [Wait(MINUTE)] + RetryActs(limit, n);
    assert acts + [Wait(MINUTE)] + RetryActs(limit, n) == acts + more;
    RetriesSyncService(env, s, dir, acts, limit, n);
    MoreLeafDeletes(env, Start(dir, s), acts, more);
    SyncedServiceAgreesIff(env, s, dir, acts + more);
  }

  // ---------- a retry out of order ----------

  lemma DetachDeletesZone(id: string, rec: Record)
    requires GoodID(id) && GoodRecord(rec)
    ensures var plan := EventPlan(GroupDetached(AsGroup(id, rec), AsGroup(id, rec)), []);
      Steps(plan) > 0 && forall s :: ZoneEdge(id, rec.org) !in After(s, plan, Steps(plan))
  {
    hide Apply, EventPlan, Trim;
    var e := GroupDetached(AsGroup(id, rec), AsGroup(id, rec));
    DeleteEventPlan(e, []);
    assert DeletedBy(e) != [];
    forall s
      ensures ZoneEdge(id, rec.org) !in After(s, EventPlan(e, []), Steps(EventPlan(e, [])))
    {
      DetachApplied(s, id, rec, rec, ZoneEdge(id, rec.org));
      assert Apply(s, e) == After(s, EventPlan(e, []), Steps(EventPlan(e, []))) by { WholeApply(s, e); }
    }
  }

  lemma WholeApply(s: Store, e: Event)
    ensures Apply(s, e) == After(s, EventPlan(e, []), Steps(EventPlan(e, [])))
  {
    hide EventPlan;
  }

  /** An update whose first event fails is repeated with success; then the retry
      of that first event takes the group out of its zone. In dispatch order the
      group would have stayed in it. */
  lemma RetriedDetachLosesZone(s: Store, id: string, rec: Record)
    requires GoodID(id) && GoodRecord(rec)
    ensures var group := AsGroup(id, rec);
      var detach, attach := EventPlan(GroupDetached(group, group), []), EventPlan(GroupAttached(group, group), []);
      var plans, attempts := [detach, detach, attach],
        [Attempt(0, 0), Attempt(1, Steps(detach)), Attempt(2, Steps(attach)), Attempt(0, Steps(detach))];
      && LastComplete(plans, attempts)
      && ZoneEdge(id, rec.org) !in Deliver(s, plans, attempts) && ZoneEdge(id, rec.org) in InOrder(s, plans)
  {
    hide EventPlan, After, Steps, ZoneEdge, TopologyHas, Apply;
    var group := AsGroup(id, rec);
    var detach, attach := EventPlan(GroupDetached(group, group), []), EventPlan(GroupAttached(group, group), []);
    var plans := [detach, detach, attach];
    var attempts := [Attempt(0, 0), Attempt(1, Steps(detach)), Attempt(2, Steps(attach)), Attempt(0, Steps(detach))];
    assert LastAt(attempts, 0) == 3;
    assert attempts[1].event == 1 && attempts[2].event == 2;
    assert LastAt(attempts, 1) == 1 && LastAt(attempts, 2) == 2;
    DetachDeletesZone(id, rec);
    assert attempts[..3] == [Attempt(0, 0), Attempt(1, Steps(detach)), Attempt(2, Steps(attach))];
    var before := InOrder(s, plans[..2]);
    AttachApplied(before, id, rec, ZoneEdge(id, rec.org));
    ZoneInTopology(id, rec);
    WholeApply(before, GroupAttached(group, group));
  }

  lemma ZoneInTopology(id: string, rec: Record)
    ensures TopologyHas(id, rec, ZoneEdge(id, rec.org))
  {
  }
}
