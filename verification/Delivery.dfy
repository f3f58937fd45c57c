/** At-least-once delivery in any order: attempts may be repeated, reordered
    and interrupted part way. When does the final store not depend on it? */
module Delivery {
  import opened Relationships
  import opened Projection

  /** One attempt at an event, which got as far as `steps` store calls. */
  datatype Attempt = Attempt(event: nat, steps: nat)

  ghost predicate ValidAttempt(plans: seq<Plan>, a: Attempt) {
    a.event < |plans| && a.steps <= Steps(plans[a.event])
  }

  ghost predicate ValidAttempts(plans: seq<Plan>, attempts: seq<Attempt>) {
    forall i :: 0 <= i < |attempts| ==> ValidAttempt(plans, attempts[i])
  }

  ghost predicate Complete(plans: seq<Plan>, a: Attempt)
    requires ValidAttempt(plans, a)
  {
    a.steps == Steps(plans[a.event])
  }

  ghost function Deliver(s: Store, plans: seq<Plan>, attempts: seq<Attempt>): Store
    requires ValidAttempts(plans, attempts)
  {
    if attempts == [] then s
    else
      var n := |attempts| - 1;
      var a := attempts[n];
      After(Deliver(s, plans, attempts[..n]), plans[a.event], a.steps)
  }

  ghost predicate Delivered(plans: seq<Plan>, attempts: seq<Attempt>, e: nat)
    requires ValidAttempts(plans, attempts)
  {
    exists i :: 0 <= i < |attempts| && attempts[i].event == e && Complete(plans, attempts[i])
  }

  ghost predicate AtLeastOnce(plans: seq<Plan>, attempts: seq<Attempt>) {
    && ValidAttempts(plans, attempts)
    && forall e :: 0 <= e < |plans| ==> Delivered(plans, attempts, e)
  }

  ghost predicate Writes(plan: Plan, r: Relationship) {
    plan.Add? && r in plan.rels
  }

  ghost predicate Deletes(plan: Plan, r: Relationship) {
    plan.Remove? && Hit(plan.filters, r)
  }

  ghost predicate WrittenBySome(plans: seq<Plan>, r: Relationship) {
    exists e :: 0 <= e < |plans| && Writes(plans[e], r)
  }

  ghost predicate DeletedBySome(plans: seq<Plan>, r: Relationship) {
    exists e :: 0 <= e < |plans| && Deletes(plans[e], r)
  }

  /** No tuple written by one event is selected by a delete filter of another. */
  ghost predicate NoConflict(plans: seq<Plan>) {
    forall r :: !(WrittenBySome(plans, r) && DeletedBySome(plans, r))
  }

  /** Initial tuples minus everything deleted, plus everything written. */
  ghost predicate InSettled(s: Store, plans: seq<Plan>, r: Relationship) {
    WrittenBySome(plans, r) || (r in s && !DeletedBySome(plans, r))
  }

  ghost predicate Settled(s: Store, plans: seq<Plan>, t: Store) {
    forall r :: r in t <==> InSettled(s, plans, r)
  }

  lemma AfterMember(s: Store, plan: Plan, steps: nat, r: Relationship)
    requires steps <= Steps(plan)
    ensures r in After(s, plan, steps) ==> r in s || Writes(plan, r)
    ensures r in s && r !in After(s, plan, steps) ==> Deletes(plan, r)
    ensures steps == Steps(plan) && Writes(plan, r) ==> r in After(s, plan, steps)
    ensures steps == Steps(plan) && Deletes(plan, r) ==> r !in After(s, plan, steps)
  {
    match plan
    case Add(rels) =>
    case Remove(filters) =>
      assert filters[..|filters|] == filters;
      if Hit(filters[..steps], r) {
        var f :| f in filters[..steps] && Matches(f, r);
        assert f in filters;
      }
    case Unsupported =>
  }

  /** A tuple that some event writes and none deletes is there once its event
      has been delivered, and stays. */
  lemma {:induction false} WrittenStays(s: Store, plans: seq<Plan>, attempts: seq<Attempt>, e: nat, r: Relationship)
    requires ValidAttempts(plans, attempts)
    requires e < |plans| && Writes(plans[e], r) && !DeletedBySome(plans, r)
    requires r in s || Delivered(plans, attempts, e)
    ensures r in Deliver(s, plans, attempts)
    decreases |attempts|
  {
    if attempts != [] {
      var n := |attempts| - 1;
      var a := attempts[n];
      AfterMember(Deliver(s, plans, attempts[..n]), plans[a.event], a.steps, r);
      assert !Deletes(plans[a.event], r);
      if !(a.event == e && Complete(plans, a)) {
        if r !in s {
          var i :| 0 <= i < |attempts| && attempts[i].event == e && Complete(plans, attempts[i]);
          assert attempts[..n][i] == attempts[i];
        }
        WrittenStays(s, plans, attempts[..n], e, r);
      }
    }
  }

  /** A tuple that some event deletes and none writes is gone once its event
      has been delivered, and does not come back. */
  lemma {:induction false} DeletedStaysAway(s: Store, plans: seq<Plan>, attempts: seq<Attempt>, e: nat, r: Relationship)
    requires ValidAttempts(plans, attempts)
    requires e < |plans| && Deletes(plans[e], r) && !WrittenBySome(plans, r)
    requires r !in s || Delivered(plans, attempts, e)
    ensures r !in Deliver(s, plans, attempts)
    decreases |attempts|
  {
    if attempts != [] {
      var n := |attempts| - 1;
      var a := attempts[n];
      AfterMember(Deliver(s, plans, attempts[..n]), plans[a.event], a.steps, r);
      assert !Writes(plans[a.event], r);
      if !(a.event == e && Complete(plans, a)) {
        if r in s {
          var i :| 0 <= i < |attempts| && attempts[i].event == e && Complete(plans, attempts[i]);
          assert attempts[..n][i] == attempts[i];
        }
        DeletedStaysAway(s, plans, attempts[..n], e, r);
      }
    }
  }

  lemma {:induction false} UntouchedStays(s: Store, plans: seq<Plan>, attempts: seq<Attempt>, r: Relationship)
    requires ValidAttempts(plans, attempts)
    requires !WrittenBySome(plans, r) && !DeletedBySome(plans, r)
    ensures r in Deliver(s, plans, attempts) <==> r in s
    decreases |attempts|
  {
    if attempts != [] {
      var n := |attempts| - 1;
      var a := attempts[n];
      UntouchedStays(s, plans, attempts[..n], r);
      AfterMember(Deliver(s, plans, attempts[..n]), plans[a.event], a.steps, r);
      assert !Writes(plans[a.event], r) && !Deletes(plans[a.event], r);
    }
  }

  /** Without conflicts every at-least-once delivery settles in the same store. */
  lemma DeliverySettles(s: Store, plans: seq<Plan>, attempts: seq<Attempt>)
    requires NoConflict(plans) && AtLeastOnce(plans, attempts)
    ensures Settled(s, plans, Deliver(s, plans, attempts))
  {
    forall r
      ensures r in Deliver(s, plans, attempts) <==> InSettled(s, plans, r)
    {
      if WrittenBySome(plans, r) {
        var e :| 0 <= e < |plans| && Writes(plans[e], r);
        WrittenStays(s, plans, attempts, e, r);
      } else if DeletedBySome(plans, r) {
        var e :| 0 <= e < |plans| && Deletes(plans[e], r);
        DeletedStaysAway(s, plans, attempts, e, r);
      } else {
        UntouchedStays(s, plans, attempts, r);
      }
    }
  }

  ghost predicate Confluent(s: Store, plans: seq<Plan>) {
    forall a, b :: AtLeastOnce(plans, a) && AtLeastOnce(plans, b) ==> Deliver(s, plans, a) == Deliver(s, plans, b)
  }

  ghost function EachOnce(plans: seq<Plan>, n: nat): (attempts: seq<Attempt>)
    requires n <= |plans|
    ensures |attempts| == n
    ensures forall e :: 0 <= e < n ==> attempts[e] == Attempt(e, Steps(plans[e]))
  {
    if n == 0 then [] else EachOnce(plans, n - 1) + [Attempt(n - 1, Steps(plans[n - 1]))]
  }

  /** Every event once, then event e once more. */
  lemma EachOnceThen(s: Store, plans: seq<Plan>, e: nat, r: Relationship) returns (attempts: seq<Attempt>)
    requires e < |plans|
    ensures AtLeastOnce(plans, attempts)
    ensures Writes(plans[e], r) ==> r in Deliver(s, plans, attempts)
    ensures Deletes(plans[e], r) ==> r !in Deliver(s, plans, attempts)
  {
    var once := EachOnce(plans, |plans|);
    attempts := once + [Attempt(e, Steps(plans[e]))];
    forall d | 0 <= d < |plans|
      ensures Delivered(plans, attempts, d)
    {
      assert attempts[d] == once[d];
    }
    assert attempts[..|once|] == once;
    AfterMember(Deliver(s, plans, once), plans[e], Steps(plans[e]), r);
  }

  /** The final store is independent of order, repetition and interruption
      exactly when no written tuple is selected by another event's filter. */
  lemma ConfluentIff(s: Store, plans: seq<Plan>)
    ensures Confluent(s, plans) <==> NoConflict(plans)
  {
    if NoConflict(plans) {
      forall a, b | AtLeastOnce(plans, a) && AtLeastOnce(plans, b)
        ensures Deliver(s, plans, a) == Deliver(s, plans, b)
      {
        DeliverySettles(s, plans, a);
        DeliverySettles(s, plans, b);
        assert forall r :: r in Deliver(s, plans, a) <==> r in Deliver(s, plans, b);
      }
    } else {
      var r :| WrittenBySome(plans, r) && DeletedBySome(plans, r);
      var w :| 0 <= w < |plans| && Writes(plans[w], r);
      var d :| 0 <= d < |plans| && Deletes(plans[d], r);
      var a := EachOnceThen(s, plans, w, r);
      var b := EachOnceThen(s, plans, d, r);
      assert Deliver(s, plans, a) != Deliver(s, plans, b);
    }
  }
}
