/** A directory operation of the projecting decorator: the events it dispatches
    after the provider has done its part, and what the store and the event table
    are left with, whether the dispatches succeed or not. */
module Operations {
  import opened Text
  import opened Relationships
  import opened Projection
  import opened Dispatcher
  import opened Directory
  import opened EventPlans
  import opened Mirror
  import opened Agreement

  // ---------- one direct dispatch ----------

  lemma EmptyPlan(s: Store, q: Payload)
    requires Empty(q)
    ensures Full(s, ApplyPlan(q)) == s
  {
    assert Dedupe(CleanRelationships(q.relationships)) == [];
    assert CleanFilters(q.filters) == [];
    assert Elements([]) == {};
    RemainingNone(s);
  }

  /** A direct dispatch that succeeds applies the whole event. */
  lemma DirectDispatch(env: Env, w: World, payload: Payload)
    requires !env.dtm && Dispatch(env, w, payload).1
    ensures Dispatch(env, w, payload).0.tuples == Full(w.tuples, ApplyPlan(Normalize(payload)))
  {
    hide Run, Normalize;
    var q := Normalize(payload);
    if Empty(q) {
      EmptyPlan(w.tuples, q);
    }
  }

  /** The event's row is the last one; it has failed and is due in a minute. */
  ghost predicate Recorded(w: World, t: World, q: Payload) {
    && |t.rows| == |w.rows| + 1 && t.rows[..|w.rows|] == w.rows
    && t.rows[|w.rows|] == FailedRow(NewRow(q, w.clock), w.clock) && t.clock == w.clock
  }

  /** A direct dispatch that fails has recorded the event, and left what its
      first store calls did, short of the whole plan. */
  lemma DirectDispatchFails(env: Env, w: World, payload: Payload) returns (steps: nat)
    requires !env.dtm && !Dispatch(env, w, payload).1
    ensures var t, q := Dispatch(env, w, payload).0, Normalize(payload);
      && Recorded(w, t, q)
      && steps <= Steps(ApplyPlan(q)) && t.tuples == After(w.tuples, ApplyPlan(q), steps)
      && (steps < Steps(ApplyPlan(q)) || ApplyPlan(q) == Unsupported)
  {
    hide Normalize, ApplyPlan;
    var q := Normalize(payload);
    steps := Run(ApplyPlan(q), w.tuples, env.fails, w.calls).steps;
  }

  lemma CapturedIrrelevant(e: Event, captured: seq<Relationship>)
    ensures EventPlan(e, captured) == EventPlan(e, [])
  {
    hide ApplyPlan, Normalize, DeletedBy;
    if !IsWrite(e) {
      DeleteEventPlan(e, captured);
      DeleteEventPlan(e, []);
    } else {
      WriteShape(e);
      assert PayloadOf(e, captured) == PayloadOf(e, []);
    }
  }

  // ---------- one operation ----------

  /** The dispatches of an accepted operation: the second event of an update only
      after the first went through. `captured` is the compensation data. */
  ghost function Operate(env: Env, w: World, dir: Registry, op: Op, captured: seq<Relationship>): (World, bool)
    requires Accepted(dir, op)
  {
    var events := EventsOf(dir, op);
    var first := Dispatch(env, w, PayloadOf(events[0].event, captured));
    if |events| == 1 || !first.1 then first else Dispatch(env, first.0, PayloadOf(events[1].event, captured))
  }

  lemma DispatchApplies(env: Env, w: World, e: Event, captured: seq<Relationship>)
    requires !env.dtm && Dispatch(env, w, PayloadOf(e, captured)).1
    ensures Dispatch(env, w, PayloadOf(e, captured)).0.tuples == Apply(w.tuples, e)
  {
    hide Dispatch, PayloadOf, Normalize, ApplyPlan, Full;
    DirectDispatch(env, w, PayloadOf(e, captured));
    CapturedIrrelevant(e, captured);
  }

  /** Reported as done in direct mode, the store has received the whole change. */
  lemma OperateDone(env: Env, w: World, dir: Registry, op: Op, captured: seq<Relationship>)
    requires !env.dtm && Accepted(dir, op) && Operate(env, w, dir, op, captured).1
    ensures Operate(env, w, dir, op, captured).0.tuples == StoreAfter(dir, w.tuples, op)
  {
    hide Dispatch, PayloadOf, Apply;
    var events := EventsOf(dir, op);
    var e := events[0].event;
    DispatchApplies(env, w, e, captured);
    if |events| == 1 {
      OneEvent(w.tuples, e);
    } else {
      DispatchApplies(env, Dispatch(env, w, PayloadOf(e, captured)).0, events[1].event, captured);
      TwoEvents(w.tuples, e, events[1].event);
    }
  }

  /** So a healthy store stays healthy, as long as deleted groups are leaves. */
  lemma DoneKeepsHealthy(env: Env, w: World, dir: Registry, op: Op, captured: seq<Relationship>)
    requires !env.dtm && Accepted(dir, op) && Healthy(dir, w.tuples) && (op.DeleteGroup? ==> Leaf(dir, op.id))
    ensures var (t, ok) := Operate(env, w, dir, op, captured);
      ok ==> Healthy(DirectoryAfter(dir, op), t.tuples)
  {
    hide Operate, Healthy, StoreAfter, Accepted, DirectoryAfter, Leaf;
    if Operate(env, w, dir, op, captured).1 {
      OperateDone(env, w, dir, op, captured);
      OperationKeepsHealthy(dir, w.tuples, op);
    }
  }

  /** Reported as failed in direct mode, the operation stopped at its k-th event,
      which is recorded, failed, and due in a minute; the store has received the
      events before it and some of its store calls, but not all. */
  lemma OperateFailed(env: Env, w: World, dir: Registry, op: Op, captured: seq<Relationship>)
      returns (k: nat, steps: nat)
    requires !env.dtm && Accepted(dir, op) && !Operate(env, w, dir, op, captured).1
    ensures var events, t := EventsOf(dir, op), Operate(env, w, dir, op, captured).0;
      && k < |events|
      && t.rows != [] && t.rows[|t.rows| - 1].payload == Normalize(PayloadOf(events[k].event, captured))
      && t.rows[|t.rows| - 1].status == Failed && t.rows[|t.rows| - 1].nextRunAt == Some(w.clock + MINUTE)
      && var plan := EventPlan(events[k].event, captured);
      && steps <= Steps(plan) && (steps < Steps(plan) || plan == Unsupported)
      && t.tuples == After(AfterAll(w.tuples, events[..k]), plan, steps)
  {
    hide Dispatch, PayloadOf, Apply, Normalize, ApplyPlan;
    var events := EventsOf(dir, op);
    var first := Dispatch(env, w, PayloadOf(events[0].event, captured));
    if !first.1 {
      k := 0;
      steps := DirectDispatchFails(env, w, PayloadOf(events[0].event, captured));
      assert events[..0] == [];
    } else {
      k := 1;
      DispatchApplies(env, w, events[0].event, captured);
      DispatchKeepsClock(env, w, PayloadOf(events[0].event, captured));
      steps := DirectDispatchFails(env, first.0, PayloadOf(events[1].event, captured));
      assert events[..1] == [events[0]] == [Done(events[0].event)];
      OneEvent(w.tuples, events[0].event);
    }
  }

  lemma DispatchKeepsClock(env: Env, w: World, payload: Payload)
    ensures Dispatch(env, w, payload).0.clock == w.clock
  {
    hide Run, Normalize;
  }
}
