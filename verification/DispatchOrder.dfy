/** Deliveries of conflicting events: when do attempts that were repeated,
    interrupted and reordered end in the store that the events give one after
    the other, in the order they were dispatched? */
module DispatchOrder {
  import opened Relationships
  import opened Projection
  import opened Delivery

  /** Every event applied once, in full, in order. */
  ghost function InOrder(s: Store, plans: seq<Plan>): Store {
    if plans == [] then s else Full(InOrder(s, plans[..|plans| - 1]), plans[|plans| - 1])
  }

  /** The position of the last attempt at an event, -1 if there is none. */
  function LastAt(attempts: seq<Attempt>, e: nat): (k: int)
    ensures -1 <= k < |attempts|
    ensures k >= 0 ==> attempts[k].event == e
    ensures forall j :: k < j < |attempts| ==> attempts[j].event != e
  {
    if attempts == [] then -1
    else if attempts[|attempts| - 1].event == e then |attempts| - 1
    else LastAt(attempts[..|attempts| - 1], e)
  }

  /** The last attempt at every event got through all its store calls. */
  ghost predicate LastComplete(plans: seq<Plan>, attempts: seq<Attempt>) {
    && ValidAttempts(plans, attempts)
    && forall e :: 0 <= e < |plans| ==> LastAt(attempts, e) >= 0 && Complete(plans, attempts[LastAt(attempts, e)])
  }

  /** A write of the tuple was attempted last after every delete of it. */
  ghost predicate WriteAttemptedLast(plans: seq<Plan>, attempts: seq<Attempt>, r: Relationship) {
    exists e :: 0 <= e < |plans| && Writes(plans[e], r)
      && forall d :: 0 <= d < |plans| && Deletes(plans[d], r) ==> LastAt(attempts, d) < LastAt(attempts, e)
  }

  /** A write of the tuple was dispatched after every delete of it. */
  ghost predicate WriteDispatchedLast(plans: seq<Plan>, r: Relationship) {
    exists e :: 0 <= e < |plans| && Writes(plans[e], r)
      && forall d :: 0 <= d < |plans| && Deletes(plans[d], r) ==> d < e
  }

  lemma {:induction false} StaysIn(s: Store, plans: seq<Plan>, attempts: seq<Attempt>, k: nat, r: Relationship)
    requires ValidAttempts(plans, attempts) && k < |attempts|
    requires forall j :: k < j < |attempts| ==> !Deletes(plans[attempts[j].event], r)
    requires r in Deliver(s, plans, attempts[..k + 1])
    ensures r in Deliver(s, plans, attempts)
    decreases |attempts|
  {
    var n := |attempts| - 1;
    if k == n {
      assert attempts[..k + 1] == attempts;
    } else {
      assert attempts[..n][..k + 1] == attempts[..k + 1];
      StaysIn(s, plans, attempts[..n], k, r);
      AfterMember(Deliver(s, plans, attempts[..n]), plans[attempts[n].event], attempts[n].steps, r);
    }
  }

  lemma {:induction false} StaysOut(s: Store, plans: seq<Plan>, attempts: seq<Attempt>, k: nat, r: Relationship)
    requires ValidAttempts(plans, attempts) && k < |attempts|
    requires forall j :: k < j < |attempts| ==> !Writes(plans[attempts[j].event], r)
    requires r !in Deliver(s, plans, attempts[..k + 1])
    ensures r !in Deliver(s, plans, attempts)
    decreases |attempts|
  {
    var n := |attempts| - 1;
    if k == n {
      assert attempts[..k + 1] == attempts;
    } else {
      assert attempts[..n][..k + 1] == attempts[..k + 1];
      StaysOut(s, plans, attempts[..n], k, r);
      AfterMember(Deliver(s, plans, attempts[..n]), plans[attempts[n].event], attempts[n].steps, r);
    }
  }

  /** What the last, complete attempt at an event leaves of a tuple it touches. */
  lemma AtLast(s: Store, plans: seq<Plan>, attempts: seq<Attempt>, e: nat, r: Relationship)
    requires LastComplete(plans, attempts) && e < |plans|
    ensures var k := LastAt(attempts, e);
      && (Writes(plans[e], r) ==> r in Deliver(s, plans, attempts[..k + 1]))
      && (Deletes(plans[e], r) ==> r !in Deliver(s, plans, attempts[..k + 1]))
  {
    var k := LastAt(attempts, e);
    var upto := attempts[..k + 1];
    assert upto[..k] == attempts[..k] && upto[k] == attempts[k];
    AfterMember(Deliver(s, plans, attempts[..k]), plans[e], Steps(plans[e]), r);
  }

  lemma {:induction false} LatestDelete(plans: seq<Plan>, attempts: seq<Attempt>, r: Relationship, n: nat)
    returns (d: nat)
    requires n <= |plans| && exists e :: 0 <= e < n && Deletes(plans[e], r)
    ensures d < n && Deletes(plans[d], r)
    ensures forall e :: 0 <= e < n && Deletes(plans[e], r) ==> LastAt(attempts, e) <= LastAt(attempts, d)
  {
    if exists e :: 0 <= e < n - 1 && Deletes(plans[e], r) {
      d := LatestDelete(plans, attempts, r, n - 1);
      if Deletes(plans[n - 1], r) && LastAt(attempts, n - 1) > LastAt(attempts, d) {
        d := n - 1;
      }
    } else {
      d := n - 1;
    }
  }

  /** The last attempts decide every tuple. */
  lemma LastAttemptsDecide(s: Store, plans: seq<Plan>, attempts: seq<Attempt>, r: Relationship)
    requires LastComplete(plans, attempts)
    ensures r in Deliver(s, plans, attempts)
      <==> (WriteAttemptedLast(plans, attempts, r) || (r in s && !DeletedBySome(plans, r)))
  {
    hide LastAt, Deliver, Writes, Deletes;
    if WriteAttemptedLast(plans, attempts, r) {
      var e :| 0 <= e < |plans| && Writes(plans[e], r)
        && forall d :: 0 <= d < |plans| && Deletes(plans[d], r) ==> LastAt(attempts, d) < LastAt(attempts, e);
      AtLast(s, plans, attempts, e, r);
      forall j | LastAt(attempts, e) < j < |attempts|
        ensures !Deletes(plans[attempts[j].event], r)
      {
        assert j <= LastAt(attempts, attempts[j].event);
      }
      StaysIn(s, plans, attempts, LastAt(attempts, e), r);
    } else if DeletedBySome(plans, r) {
      var d := LatestDelete(plans, attempts, r, |plans|);
      AtLast(s, plans, attempts, d, r);
      forall j | LastAt(attempts, d) < j < |attempts|
        ensures !Writes(plans[attempts[j].event], r)
      {
        assert j <= LastAt(attempts, attempts[j].event);
      }
      StaysOut(s, plans, attempts, LastAt(attempts, d), r);
    } else {
      assert !WrittenBySome(plans, r);
      UntouchedStays(s, plans, attempts, r);
    }
  }

  lemma {:induction false} InOrderIsDelivery(s: Store, plans: seq<Plan>, n: nat)
    requires n <= |plans|
    ensures ValidAttempts(plans, EachOnce(plans, n))
    ensures Deliver(s, plans, EachOnce(plans, n)) == InOrder(s, plans[..n])
    decreases n
  {
    if n > 0 {
      InOrderIsDelivery(s, plans, n - 1);
      assert EachOnce(plans, n)[..n - 1] == EachOnce(plans, n - 1);
      assert plans[..n][..n - 1] == plans[..n - 1];
    }
  }

  /** So do the last dispatches, when the events are applied in order. */
  lemma LastDispatchesDecide(s: Store, plans: seq<Plan>, r: Relationship)
    ensures r in InOrder(s, plans) <==> (WriteDispatchedLast(plans, r) || (r in s && !DeletedBySome(plans, r)))
  {
    var once := EachOnce(plans, |plans|);
    InOrderIsDelivery(s, plans, |plans|);
    assert plans[..|plans|] == plans;
    forall e | 0 <= e < |plans|
      ensures LastAt(once, e) == e
    {
      assert once[e].event == e;
    }
    LastAttemptsDecide(s, plans, once, r);
    assert WriteAttemptedLast(plans, once, r) <==> WriteDispatchedLast(plans, r);
  }

  ghost predicate Contested(plans: seq<Plan>, r: Relationship) {
    WrittenBySome(plans, r) && DeletedBySome(plans, r)
  }

  /** The tuple's last attempts and its last dispatches name the same winner. */
  ghost predicate SameWinner(plans: seq<Plan>, attempts: seq<Attempt>, r: Relationship) {
    WriteAttemptedLast(plans, attempts, r) <==> WriteDispatchedLast(plans, r)
  }

  /** A tuple is as if the events had been applied in order exactly when nobody
      contests it, or the winner is the same. */
  lemma InOrderIff(s: Store, plans: seq<Plan>, attempts: seq<Attempt>, r: Relationship)
    requires LastComplete(plans, attempts)
    ensures (r in Deliver(s, plans, attempts) <==> r in InOrder(s, plans))
      <==> (Contested(plans, r) ==> SameWinner(plans, attempts, r))
  {
    LastAttemptsDecide(s, plans, attempts, r);
    LastDispatchesDecide(s, plans, r);
    if !DeletedBySome(plans, r) && WrittenBySome(plans, r) {
      var e :| 0 <= e < |plans| && Writes(plans[e], r);
      assert WriteAttemptedLast(plans, attempts, r) && WriteDispatchedLast(plans, r);
    }
  }

  /** One event writes a tuple that the other deletes. */
  ghost predicate Conflicting(p: Plan, q: Plan) {
    exists r :: (Writes(p, r) && Deletes(q, r)) || (Deletes(p, r) && Writes(q, r))
  }

  /** Of two conflicting events, the one dispatched last was attempted last. */
  ghost predicate ConflictsInOrder(plans: seq<Plan>, attempts: seq<Attempt>) {
    forall d, e :: 0 <= d < e < |plans| && Conflicting(plans[d], plans[e]) ==> LastAt(attempts, d) < LastAt(attempts, e)
  }

  /** If conflicting events were last attempted in the order of their dispatch,
      the whole store is as if they had been applied in that order. */
  lemma ConflictsInOrderSettle(s: Store, plans: seq<Plan>, attempts: seq<Attempt>)
    requires LastComplete(plans, attempts) && ConflictsInOrder(plans, attempts)
    ensures forall r :: SameWinner(plans, attempts, r)
    ensures Deliver(s, plans, attempts) == InOrder(s, plans)
  {
    forall r
      ensures SameWinner(plans, attempts, r)
      ensures r in Deliver(s, plans, attempts) <==> r in InOrder(s, plans)
    {
      forall d, e | 0 <= d < |plans| && 0 <= e < |plans| && Deletes(plans[d], r) && Writes(plans[e], r)
        ensures d != e && (LastAt(attempts, d) < LastAt(attempts, e) <==> d < e)
      {
        assert Conflicting(plans[d], plans[e]) && Conflicting(plans[e], plans[d]);
      }
      InOrderIff(s, plans, attempts, r);
    }
  }
}
