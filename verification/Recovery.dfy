/** Direct-mode runs of the dispatcher: what retry_count counts, what a retry
    touches, how fast due events drain, and that a run whose faults end reaches
    the settled store. */
module Recovery {
  import opened Text
  import opened Sequences
  import opened Relationships
  import opened Projection
  import opened Dispatcher
  import opened DispatcherRuns
  import opened Delivery

  predicate Succeeded(e: Entry) {
    e.plan != Unsupported && e.steps == Steps(e.plan)
  }

  function Failures(log: seq<Entry>, i: nat): nat {
    if log == [] then 0
    else
      var e := log[|log| - 1];
      Failures(log[..|log| - 1], i) + (if e.event == i && !Succeeded(e) then 1 else 0)
  }

  lemma FailuresAppend(log: seq<Entry>, e: Entry, i: nat)
    ensures Failures(log + [e], i) == Failures(log, i) + (if e.event == i && !Succeeded(e) then 1 else 0)
  {
    assert (log + [e])[..|log|] == log;
  }

  /** A failed dispatch counts one, every failed retry counts two. */
  function Counted(failures: nat): nat {
    if failures == 0 then 0 else 2 * failures - 1
  }

  ghost predicate DirectRow(row: Row, i: nat, log: seq<Entry>) {
    && (row.status == Synced || row.status == Failed)
    && (row.status == Synced <==> EndedWith(log, i, ApplyPlan(row.payload)))
    && (row.status == Failed ==> Failures(log, i) > 0)
    && row.retryCount == Counted(Failures(log, i))
  }

  ghost predicate Direct(w: World) {
    && (forall i :: 0 <= i < |w.rows| ==> DirectRow(w.rows[i], i, w.log))
    && (forall e :: e in w.log ==> DirectEntry(w.rows, e))
  }

  ghost predicate DirectEntry(rows: seq<Row>, e: Entry) {
    e.event < |rows| && e.steps <= Steps(e.plan) && e.plan == ApplyPlan(rows[e.event].payload)
  }

  predicate DirectSteps(steps: seq<Step>) {
    forall k :: 0 <= k < |steps| ==> !steps[k].Applying? && !steps[k].Compensating?
  }

  ghost function RetriedRow(row: Row, ok: bool, clock: nat): Row {
    if ok then row.(status := Synced) else FailedRow(FailedRow(row, clock), clock)
  }

  lemma RetryRowDirect(env: Env, w: World, i: nat)
    requires !env.dtm && i < |w.rows|
    ensures var plan := ApplyPlan(w.rows[i].payload);
      var ok := Run(plan, w.tuples, env.fails, w.calls).ok;
      RetryRow(env, w, i) == (Executed(env, w, i, plan, RetriedRow(w.rows[i], ok, w.clock)), ok)
  {
    hide Run;
    var row := w.rows[i];
    var once := w.rows[i := FailedRow(row, w.clock)];
    assert once[i := FailedRow(once[i], w.clock)] == w.rows[i := FailedRow(FailedRow(row, w.clock), w.clock)];
  }

  lemma ExecutedKeepsDirect(env: Env, w: World, i: nat, row: Row)
    requires i < |w.rows|
    requires forall j :: 0 <= j < |w.rows| && j != i ==> DirectRow(w.rows[j], j, w.log)
    requires forall e :: e in w.log ==> DirectEntry(w.rows, e)
    requires row.payload == w.rows[i].payload
    requires var plan := ApplyPlan(row.payload);
      DirectRow(row, i, Executed(env, w, i, plan, row).log)
    ensures Direct(Executed(env, w, i, ApplyPlan(row.payload), row))
  {
    var plan := ApplyPlan(row.payload);
    var e := Entry(i, plan, Run(plan, w.tuples, env.fails, w.calls).steps);
    var w1 := Executed(env, w, i, plan, row);
    forall j | 0 <= j < |w1.rows|
      ensures DirectRow(w1.rows[j], j, w1.log)
    {
      if j != i {
        LastAppend(w.log, e, j);
        FailuresAppend(w.log, e, j);
      }
    }
  }

  lemma ExecutedRowDirect(env: Env, w: World, i: nat, row: Row)
    requires i < |w.rows| && row.payload == w.rows[i].payload
    requires var o := Run(ApplyPlan(row.payload), w.tuples, env.fails, w.calls);
      && row.status == (if o.ok then Synced else Failed)
      && row.retryCount == Counted(Failures(w.log, i) + if o.ok then 0 else 1)
    ensures DirectRow(row, i, Executed(env, w, i, ApplyPlan(row.payload), row).log)
  {
    hide Run, ApplyPlan, Steps;
    var plan := ApplyPlan(row.payload);
    var o := Run(plan, w.tuples, env.fails, w.calls);
    var e := Entry(i, plan, o.steps);
    LastAppend(w.log, e, i);
    FailuresAppend(w.log, e, i);
    assert o.ok <==> Succeeded(e);
  }

  lemma RetryRowKeepsDirect(env: Env, w: World, i: nat)
    requires !env.dtm && Direct(w) && i < |w.rows| && w.rows[i].status == Failed
    ensures Direct(RetryRow(env, w, i).0)
  {
    hide Run;
    var plan := ApplyPlan(w.rows[i].payload);
    var ok := Run(plan, w.tuples, env.fails, w.calls).ok;
    var row := RetriedRow(w.rows[i], ok, w.clock);
    RetryRowDirect(env, w, i);
    assert DirectRow(w.rows[i], i, w.log);
    ExecutedRowDirect(env, w, i, row);
    ExecutedKeepsDirect(env, w, i, row);
  }

  /** In any mode, a row that is not due, in particular a synced row, is neither
      changed nor attempted by RetryOnce. */
  lemma RetryLeavesOthersAlone(env: Env, w: World, limit: int, i: nat)
    requires i < |w.rows| && !IsDue(w.rows[i], w.clock)
    ensures var w1 := RetryOnce(env, w, limit).0;
      && |w1.rows| == |w.rows| && w1.rows[i] == w.rows[i]
      && w.log <= w1.log && forall k :: |w.log| <= k < |w1.log| ==> w1.log[k].event != i
  {
    hide RetryRow;
    var at := Selected(w.rows, w.clock, limit);
    SelectedFacts(w.rows, w.clock, limit);
    RetryRowsTouch(env, w, at);
    assert i !in at;
  }

  lemma {:induction false} RetryRowsKeepDirect(env: Env, w: World, at: seq<nat>)
    requires !env.dtm && Direct(w)
    requires forall k :: 0 <= k < |at| ==> at[k] < |w.rows| && w.rows[at[k]].status == Failed
    requires forall k, l :: 0 <= k < l < |at| ==> at[k] != at[l]
    ensures Direct(RetryRows(env, w, at).0)
    decreases |at|
  {
    hide RetryRow, Direct;
    if at != [] {
      var n := |at| - 1;
      RetryRowsKeepDirect(env, w, at[..n]);
      RetryRowsTouch(env, w, at[..n]);
      RetryRowKeepsDirect(env, RetryRows(env, w, at[..n]).0, at[n]);
    }
  }

  lemma NewRowKeepsDirect(env: Env, w: World, q: Payload)
    requires !env.dtm && Direct(w)
    ensures Direct(Submit(env, w.(rows := w.rows + [NewRow(q, w.clock)]), |w.rows|).0)
  {
    hide Run, ApplyPlan, DirectRow;
    var i := |w.rows|;
    var w1 := w.(rows := w.rows + [NewRow(q, w.clock)]);
    NoFailuresYet(w, i);
    var ok := Run(ApplyPlan(q), w1.tuples, env.fails, w1.calls).ok;
    var row := BranchRow(w1.rows[i], ok, Synced, w1.clock);
    ExecutedRowDirect(env, w1, i, row);
    ExecutedKeepsDirect(env, w1, i, row);
  }

  lemma DispatchKeepsDirect(env: Env, w: World, payload: Payload)
    requires !env.dtm && Direct(w)
    ensures Direct(Dispatch(env, w, payload).0)
  {
    hide Direct, Submit;
    NewRowKeepsDirect(env, w, Normalize(payload));
  }

  lemma {:induction false} NoFailuresIn(log: seq<Entry>, i: nat)
    requires forall e :: e in log ==> e.event != i
    ensures Failures(log, i) == 0
  {
    if log != [] {
      NoFailuresIn(log[..|log| - 1], i);
    }
  }

  lemma NoFailuresYet(w: World, i: nat)
    requires Direct(w) && i >= |w.rows|
    ensures Failures(w.log, i) == 0
  {
    NoFailuresIn(w.log, i);
  }

  /** In every direct-mode run, between calls every dispatched event is synced
      or failed, synced exactly when its last attempt fully applied it, and its
      retry count is 2f - 1 after f > 0 failed attempts. */
  lemma {:induction false} EveryDirectRun(env: Env, s: Store, steps: seq<Step>)
    requires !env.dtm && DirectSteps(steps)
    ensures Direct(AfterRun(env, Fresh(s), steps))
    decreases |steps|
  {
    if steps != [] {
      var n := |steps| - 1;
      EveryDirectRun(env, s, steps[..n]);
      var w := AfterRun(env, Fresh(s), steps[..n]);
      match steps[n]
      case Dispatching(payload) => DispatchKeepsDirect(env, w, payload);
      case Retrying(limit) =>
        SelectedFacts(w.rows, w.clock, limit);
        RetryRowsKeepDirect(env, w, Selected(w.rows, w.clock, limit));
      case Waiting(_) =>
      case Reading(_) =>
      case Applying(_) =>
      case Compensating(_) =>
    }
  }

  /** retry_count is the number of failed attempts only up to the first failure. */
  lemma RetryCountIsFailures(env: Env, s: Store, steps: seq<Step>, i: nat)
    requires !env.dtm && DirectSteps(steps)
    requires var w := AfterRun(env, Fresh(s), steps); i < |w.rows|
    ensures var w := AfterRun(env, Fresh(s), steps);
      w.rows[i].retryCount == Failures(w.log, i) <==> Failures(w.log, i) <= 1
  {
    EveryDirectRun(env, s, steps);
    var w := AfterRun(env, Fresh(s), steps);
    assert DirectRow(w.rows[i], i, w.log);
  }

  const GROUP_FILTER := Filter("group", "", "", "", "", "")
  const GROUP_DELETE := Payload(OP_DELETE, [], [GROUP_FILTER])

  lemma GroupDeleteIsNormal()
    ensures Normalize(GROUP_DELETE) == GROUP_DELETE && ApplyPlan(GROUP_DELETE) == Remove([GROUP_FILTER])
  {
    hide Trim, Zero, Cleaned;
    var f := GROUP_FILTER;
    assert f.resourceType != "" by { assert |"group"| == 5; }
    CollectStable([f], NoField, CleanFilter);
    CollectStable([], Zero, Cleaned);
    assert Dedupe([]) == [];
    DeleteIsNormal();
  }

  lemma DeleteIsNormal()
    ensures CleanOperation(OP_DELETE) == OP_DELETE && OP_DELETE != OP_WRITE
  {
    assert !IsSpace(OP_DELETE[0]) && !IsSpace(OP_DELETE[5]) && Trimmed(OP_DELETE);
    assert |OP_WRITE| != |OP_DELETE|;
  }

  lemma OnlyRowIsSelected(row: Row, now: nat)
    requires IsDue(row, now)
    ensures Selected([row], now, 1) == [0]
  {
    assert [row][..0] == [];
  }

  lemma FirstAttemptFails(env: Env, s: Store)
    requires !env.dtm && env.fails(0)
    ensures Dispatch(env, Fresh(s), GROUP_DELETE).0.rows == [FailedRow(NewRow(GROUP_DELETE, 0), 0)]
    ensures Dispatch(env, Fresh(s), GROUP_DELETE).0.clock == 0
  {
    hide Normalize, ApplyPlan;
    GroupDeleteIsNormal();
    var row := NewRow(GROUP_DELETE, 0);
    assert Fresh(s).rows + [row] == [row] && [row][0 := FailedRow(row, 0)] == [FailedRow(row, 0)];
    assert Steps(Remove([GROUP_FILTER])) == 1 && Reach(env.fails, 0, 1) == 0;
    assert !Empty(GROUP_DELETE);
  }

  lemma SecondAttemptFails(env: Env, w: World)
    requires !env.dtm && env.fails(w.calls)
    requires w.rows == [FailedRow(NewRow(GROUP_DELETE, 0), 0)] && w.clock == MINUTE
    ensures var rows := RetryOnce(env, w, 1).0.rows; |rows| == 1 && rows[0].retryCount == 3
  {
    hide Normalize, ApplyPlan, Due, Selected, RetryRow;
    GroupDeleteIsNormal();
    OnlyRowIsSelected(w.rows[0], w.clock);
    RetryRowDirect(env, w, 0);
    assert Steps(Remove([GROUP_FILTER])) == 1 && Reach(env.fails, w.calls, 1) == 0;
    OneRetry(env, w, 0);
  }

  lemma OneRetry(env: Env, w: World, i: nat)
    requires i < |w.rows|
    ensures RetryRows(env, w, [i]).0 == RetryRow(env, w, i).0
  {
    hide RetryRow;
    assert [i][..0] == [];
  }

  /** A concrete run with two failed attempts that counts three. */
  lemma TwoFailuresCountThree(env: Env, s: Store)
    requires !env.dtm && forall c :: env.fails(c)
    ensures var w := AfterRun(env, Fresh(s), [Dispatching(GROUP_DELETE), Waiting(MINUTE), Retrying(1)]);
      |w.rows| == 1 && Failures(w.log, 0) == 2 && w.rows[0].retryCount == 3
  {
    hide Dispatch, RetryOnce, DirectRow;
    var steps := [Dispatching(GROUP_DELETE), Waiting(MINUTE), Retrying(1)];
    var w1 := Dispatch(env, Fresh(s), GROUP_DELETE).0;
    var w2 := w1.(clock := w1.clock + MINUTE);
    assert AfterRun(env, Fresh(s), steps[..1]) == w1 by { assert steps[..1][..0] == []; }
    assert AfterRun(env, Fresh(s), steps[..2]) == w2 by { assert steps[..2][..1] == steps[..1]; }
    FirstAttemptFails(env, s);
    SecondAttemptFails(env, w2);
    EveryDirectRun(env, s, steps);
    CountedThree(AfterRun(env, Fresh(s), steps));
  }

  lemma CountedThree(w: World)
    requires Direct(w) && |w.rows| == 1 && w.rows[0].retryCount == 3
    ensures Failures(w.log, 0) == 2
  {
    assert DirectRow(w.rows[0], 0, w.log);
  }

  // ---------- draining and settling ----------

  ghost function RetryTimes(env: Env, w: World, limit: int, n: nat): World {
    if n == 0 then w else RetryOnce(env, RetryTimes(env, w, limit, n - 1), limit).0
  }

  function DueSet(w: World): set<nat> {
    set i: nat | i < |w.rows| && IsDue(w.rows[i], w.clock)
  }

  lemma DueCount(w: World)
    ensures |Due(w.rows, w.clock)| == |DueSet(w)|
  {
    DueFacts(w.rows, w.clock);
    var at := Due(w.rows, w.clock);
    DistinctCount(at);
    assert DueSet(w) == Members(at);
  }

  function Members(at: seq<nat>): set<nat> {
    set i | i in at
  }

  lemma {:induction false} DistinctCount(at: seq<nat>)
    requires forall k, l :: 0 <= k < l < |at| ==> at[k] != at[l]
    ensures |Members(at)| == |at|
  {
    if at == [] {
      assert Members(at) == {};
    } else {
      var n := |at| - 1;
      DistinctCount(at[..n]);
      assert Members(at) == Members(at[..n]) + {at[n]};
      assert at[n] !in Members(at[..n]);
    }
  }

  /** What a retry makes of one selected row: it is no longer due, and it is
      synced if its application succeeded. */
  lemma RetryRowHandles(env: Env, w: World, i: nat)
    requires !env.dtm && i < |w.rows|
    ensures var w1 := RetryRow(env, w, i).0;
      && |w1.rows| == |w.rows| && !IsDue(w1.rows[i], w1.clock)
      && w.calls <= w1.calls
      && (NoMoreFaults(env, w) && ApplyPlan(w.rows[i].payload) != Unsupported ==> w1.rows[i].status == Synced)
  {
    RetryRowDirect(env, w, i);
    hide RetryRow, ApplyPlan;
    var plan := ApplyPlan(w.rows[i].payload);
    if NoMoreFaults(env, w) {
      ReachIs(env.fails, w.calls, Steps(plan), Steps(plan));
    }
  }

  ghost predicate NoMoreFaults(env: Env, w: World) {
    forall c :: c >= w.calls ==> !env.fails(c)
  }

  ghost predicate AllSupported(w: World) {
    forall i :: 0 <= i < |w.rows| ==> ApplyPlan(w.rows[i].payload) != Unsupported
  }

  lemma {:induction false} RetryRowsHandle(env: Env, w: World, at: seq<nat>)
    requires !env.dtm
    requires forall k :: 0 <= k < |at| ==> at[k] < |w.rows|
    requires forall k, l :: 0 <= k < l < |at| ==> at[k] != at[l]
    ensures var w1 := RetryRows(env, w, at).0;
      && w.calls <= w1.calls
      && (forall i :: i in at ==> !IsDue(w1.rows[i], w1.clock))
      && (NoMoreFaults(env, w) && AllSupported(w) ==> forall i :: i in at ==> w1.rows[i].status == Synced)
    decreases |at|
  {
    hide RetryRow, IsDue;
    if at != [] {
      var n := |at| - 1;
      var w1 := RetryRows(env, w, at[..n]).0;
      RetryRowsHandle(env, w, at[..n]);
      RetryRowsTouch(env, w, at[..n]);
      RetryRowHandles(env, w1, at[n]);
      RetryRowTouches(env, w1, at[n]);
      var w2 := RetryRow(env, w1, at[n]).0;
      forall i | i in at
        ensures !IsDue(w2.rows[i], w2.clock)
        ensures NoMoreFaults(env, w) && AllSupported(w) ==> w2.rows[i].status == Synced
      {
        if i != at[n] { assert i in at[..n]; }
      }
    }
  }

  /** One RetryOnce handles the oldest due rows, as many as the limit allows. */
  lemma RetryOnceDrains(env: Env, w: World, limit: int)
    requires !env.dtm
    ensures var w1 := RetryOnce(env, w, limit).0;
      && DueSet(w1) <= DueSet(w)
      && |DueSet(w1)| == if |DueSet(w)| <= Limit(limit) then 0 else |DueSet(w)| - Limit(limit)
  {
    hide RetryRow, RetryRows;
    var at := Selected(w.rows, w.clock, limit);
    var w1 := RetryRows(env, w, at).0;
    SelectedFacts(w.rows, w.clock, limit);
    RetryRowsHandle(env, w, at);
    RetryRowsTouch(env, w, at);
    DistinctCount(at);
    DueCount(w);
    assert forall i :: i in at ==> i in DueSet(w);
    assert DueSet(w1) == DueSet(w) - Members(at);
    CardDifference(DueSet(w), Members(at));
  }

  /** n due events drain in ceil(n / limit) calls, whatever fails meanwhile. */
  lemma {:induction false} DueDrains(env: Env, w: World, limit: int, n: nat)
    requires !env.dtm
    ensures var left := |DueSet(w)| - n * Limit(limit);
      |DueSet(RetryTimes(env, w, limit, n))| == if left <= 0 then 0 else left
  {
    hide RetryOnce;
    if n > 0 {
      DueDrains(env, w, limit, n - 1);
      RetryOnceDrains(env, RetryTimes(env, w, limit, n - 1), limit);
      assert n * Limit(limit) == (n - 1) * Limit(limit) + Limit(limit);
    }
  }

  /** Through DTM a successful resubmission leaves the row due, so the same rows
      are submitted again by every call until a callback settles them. */
  lemma DtmDoesNotDrain(env: Env, w: World, i: nat)
    requires env.dtm && i < |w.rows| && IsDue(w.rows[i], w.clock)
    ensures RetryRow(env, w, i).1 ==> IsDue(RetryRow(env, w, i).0.rows[i], w.clock)
  {
  }

  ghost function Plans(rows: seq<Row>): (plans: seq<Plan>)
    ensures |plans| == |rows|
    ensures forall i :: 0 <= i < |rows| ==> plans[i] == ApplyPlan(rows[i].payload)
  {
    seq(|rows|, i requires 0 <= i < |rows| => ApplyPlan(rows[i].payload))
  }

  function Attempts(log: seq<Entry>): (attempts: seq<Attempt>)
    ensures |attempts| == |log|
    ensures forall k :: 0 <= k < |log| ==> attempts[k] == Attempt(log[k].event, log[k].steps)
  {
    seq(|log|, k requires 0 <= k < |log| => Attempt(log[k].event, log[k].steps))
  }

  /** The store of a direct run is a delivery of its events. */
  lemma {:induction false} ReplayIsDelivery(s: Store, rows: seq<Row>, log: seq<Entry>)
    requires forall e :: e in log ==> DirectEntry(rows, e)
    ensures ValidAttempts(Plans(rows), Attempts(log))
    ensures Deliver(s, Plans(rows), Attempts(log)) == Replay(s, log)
    decreases |log|
  {
    hide ApplyPlan;
    forall k | 0 <= k < |log|
      ensures ValidAttempt(Plans(rows), Attempts(log)[k])
    {
      assert DirectEntry(rows, log[k]);
    }
    if log != [] {
      var n := |log| - 1;
      ReplayIsDelivery(s, rows, log[..n]);
      assert Attempts(log)[..n] == Attempts(log[..n]);
      assert DirectEntry(rows, log[n]);
    }
  }

  lemma {:induction false} LastIsInLog(log: seq<Entry>, i: nat) returns (k: nat)
    requires Last(log, i).Some?
    ensures k < |log| && log[k] == Last(log, i).value && log[k].event == i
  {
    var n := |log| - 1;
    if log[n].event == i {
      k := n;
    } else {
      k := LastIsInLog(log[..n], i);
    }
  }

  /** Once every event is synced and no two events conflict, the store holds
      exactly the initial tuples minus all deletes plus all writes. */
  lemma SyncedIsSettled(s: Store, w: World)
    requires Good(s, w) && Direct(w)
    requires forall i :: 0 <= i < |w.rows| ==> w.rows[i].status == Synced
    requires NoConflict(Plans(w.rows))
    ensures Settled(s, Plans(w.rows), w.tuples)
  {
    hide ApplyPlan;
    var plans, attempts := Plans(w.rows), Attempts(w.log);
    ReplayIsDelivery(s, w.rows, w.log);
    forall i | 0 <= i < |plans|
      ensures Delivered(plans, attempts, i)
    {
      assert DirectRow(w.rows[i], i, w.log);
      var k := LastIsInLog(w.log, i);
      assert attempts[k].event == i && Complete(plans, attempts[k]);
    }
    DeliverySettles(s, plans, attempts);
  }

  ghost predicate FailedAreDue(w: World) {
    forall i :: 0 <= i < |w.rows| && w.rows[i].status == Failed ==> IsDue(w.rows[i], w.clock)
  }

  lemma RetryOnceKeepsFailedDue(env: Env, w: World, limit: int)
    requires !env.dtm && NoMoreFaults(env, w) && AllSupported(w) && FailedAreDue(w)
    ensures var w1 := RetryOnce(env, w, limit).0;
      NoMoreFaults(env, w1) && AllSupported(w1) && FailedAreDue(w1)
  {
    hide RetryRow, RetryRows, ApplyPlan;
    var at := Selected(w.rows, w.clock, limit);
    SelectedFacts(w.rows, w.clock, limit);
    RetryRowsHandle(env, w, at);
    RetryRowsTouch(env, w, at);
    var w1 := RetryRows(env, w, at).0;
    forall i | 0 <= i < |w1.rows| && w1.rows[i].status == Failed
      ensures IsDue(w1.rows[i], w1.clock)
    {
      assert i !in at;
    }
  }

  function Retries(limit: int, n: nat): (steps: seq<Step>)
    ensures |steps| == n && forall k :: 0 <= k < n ==> steps[k] == Retrying(limit)
  {
    seq(n, k => Retrying(limit))
  }

  lemma {:induction false} RetryTimesIsRun(env: Env, w: World, steps: seq<Step>, limit: int, n: nat)
    ensures AfterRun(env, w, steps + Retries(limit, n)) == RetryTimes(env, AfterRun(env, w, steps), limit, n)
    decreases n
  {
    hide RetryOnce;
    var all := steps + Retries(limit, n);
    if n == 0 {
      assert all == steps;
    } else {
      assert all[..|all| - 1] == steps + Retries(limit, n - 1);
      RetryTimesIsRun(env, w, steps, limit, n - 1);
    }
  }

  lemma {:induction false} RetryTimesKeepFailedDue(env: Env, w: World, limit: int, n: nat)
    requires !env.dtm && NoMoreFaults(env, w) && AllSupported(w) && FailedAreDue(w)
    ensures var w1 := RetryTimes(env, w, limit, n); NoMoreFaults(env, w1) && AllSupported(w1) && FailedAreDue(w1)
  {
    hide RetryOnce;
    if n > 0 {
      RetryTimesKeepFailedDue(env, w, limit, n - 1);
      RetryOnceKeepsFailedDue(env, RetryTimes(env, w, limit, n - 1), limit);
    }
  }

  lemma WaitMakesDue(env: Env, s: Store, steps: seq<Step>)
    ensures FailedAreDue(AfterRun(env, Fresh(s), steps + [Waiting(MINUTE)]))
  {
    hide Replay, BackedRow, ValidEntry;
    var w := AfterRun(env, Fresh(s), steps);
    assert (steps + [Waiting(MINUTE)])[..|steps|] == steps;
    EveryRunIsGood(env, s, steps);
    assert forall i :: 0 <= i < |w.rows| ==> TimelyRow(w.rows[i], w.clock);
  }

  /** After any direct-mode run, one minute after the store stops failing,
      ceil(due / limit) calls of RetryOnce bring every event to synced; without
      conflicts the store is then settled. */
  lemma EveryRunRecovers(env: Env, s: Store, steps: seq<Step>, limit: int, n: nat)
    requires !env.dtm && DirectSteps(steps)
    requires var w := AfterRun(env, Fresh(s), steps + [Waiting(MINUTE)]);
      NoMoreFaults(env, w) && AllSupported(w) && |DueSet(w)| <= n * Limit(limit)
    ensures var w1 := RetryTimes(env, AfterRun(env, Fresh(s), steps + [Waiting(MINUTE)]), limit, n);
      && (forall i :: 0 <= i < |w1.rows| ==> w1.rows[i].status == Synced)
      && (NoConflict(Plans(w1.rows)) ==> Settled(s, Plans(w1.rows), w1.tuples))
  {
    hide RetryOnce, ApplyPlan, Settled, NoConflict, Plans, AfterRun;
    var waited := steps + [Waiting(MINUTE)];
    var w := AfterRun(env, Fresh(s), waited);
    WaitMakesDue(env, s, steps);
    RetryTimesKeepFailedDue(env, w, limit, n);
    DueDrains(env, w, limit, n);
    RetryTimesIsRun(env, Fresh(s), waited, limit, n);
    EveryRunIsGood(env, s, waited + Retries(limit, n));
    EveryDirectRun(env, s, waited + Retries(limit, n));
    var w1 := RetryTimes(env, w, limit, n);
    assert DueSet(w1) == {};
    forall i | 0 <= i < |w1.rows|
      ensures w1.rows[i].status == Synced
    {
      assert DirectRow(w1.rows[i], i, w1.log);
      assert i !in DueSet(w1);
    }
    if NoConflict(Plans(w1.rows)) {
      SyncedIsSettled(s, w1);
    }
  }
}
