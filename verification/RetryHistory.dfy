/** Which rows a retry takes and what becomes of finished rows, told from the
    event table and the history of attempts alone. */
module RetryHistory {
  import opened Text
  import opened Relationships
  import opened Projection
  import opened Dispatcher
  import opened DispatcherRuns
  import opened Recovery

  // ---------- which rows a retry takes ----------

  predicate Late(row: Row, now: nat) {
    && row.status in {Pending, Submitted, Failed}
    && (row.nextRunAt.Some? ==> row.nextRunAt.value <= now)
  }

  function Overdue(w: World): set<nat> {
    set i: nat | i < |w.rows| && Late(w.rows[i], w.clock)
  }

  function Before(w: World, i: nat): set<nat> {
    set j | j in Overdue(w) && j < i
  }

  /** Fewer overdue rows are older than the limit allows; without a usable
      limit that is 50. */
  predicate Taken(w: World, limit: int, i: nat) {
    i in Overdue(w) && |Before(w, i)| < (if 0 < limit <= 200 then limit else 50)
  }

  function TakenSet(w: World, limit: int): set<nat> {
    set i | i in Overdue(w) && Taken(w, limit, i)
  }

  lemma OverdueIsDue(w: World)
    ensures Overdue(w) == DueSet(w)
  {
  }

  lemma DueRank(w: World, k: nat)
    requires k < |Due(w.rows, w.clock)|
    ensures |Before(w, Due(w.rows, w.clock)[k])| == k
  {
    var at := Due(w.rows, w.clock);
    DueFacts(w.rows, w.clock);
    DistinctCount(at[..k]);
    forall j: nat
      ensures j in Before(w, at[k]) <==> j in at[..k]
    {
      if j in Before(w, at[k]) {
        var l :| 0 <= l < |at| && at[l] == j;
        assert l < k;
        assert at[..k][l] == j;
      }
    }
    assert Before(w, at[k]) == Members(at[..k]);
  }

  lemma InSelected(w: World, limit: int, i: nat)
    ensures i in Selected(w.rows, w.clock, limit) <==> Taken(w, limit, i)
  {
    hide Before, Late;
    var due, at := Due(w.rows, w.clock), Selected(w.rows, w.clock, limit);
    DueFacts(w.rows, w.clock);
    OverdueIsDue(w);
    assert i in Overdue(w) <==> i in due;
    if i in due {
      var k :| 0 <= k < |due| && due[k] == i;
      DueRank(w, k);
      assert k < |at| ==> at[k] == i;
      assert i in at ==> k < |at|;
    }
  }

  lemma SelectedIsTaken(w: World, limit: int)
    ensures var at := Selected(w.rows, w.clock, limit);
      && (forall k, l :: 0 <= k < l < |at| ==> at[k] < at[l])
      && (forall i: nat :: i in at <==> Taken(w, limit, i))
      && |TakenSet(w, limit)| == |at|
      && |at| == (if |Overdue(w)| <= Limit(limit) then |Overdue(w)| else Limit(limit))
  {
    hide Overdue, Taken, Due;
    var at := Selected(w.rows, w.clock, limit);
    DueFacts(w.rows, w.clock);
    DueCount(w);
    OverdueIsDue(w);
    DistinctCount(at);
    forall i: nat
      ensures i in at <==> Taken(w, limit, i)
      ensures Taken(w, limit, i) ==> i in Overdue(w)
    {
      InSelected(w, limit, i);
      if Taken(w, limit, i) { TakenIsOverdue(w, limit, i); }
    }
    assert TakenSet(w, limit) == Members(at);
  }

  // ---------- direct mode ----------

  /** What an attempt at a row leaves of it. */
  ghost predicate Attempted(row: Row, t: Row, e: Entry, clock: nat) {
    if Succeeded(e) then t == row.(status := Synced)
    else t == row.(status := Failed, nextRunAt := Some(clock + 60), retryCount := row.retryCount + 2)
  }

  function SucceededAt(log: seq<Entry>, from: nat): set<nat> {
    set k: nat | from <= k < |log| && Succeeded(log[k])
  }

  /** The entry is an attempt at the row, whose outcome the row shows. */
  ghost predicate Recorded(rows: seq<Row>, after: seq<Row>, e: Entry, clock: nat) {
    && e.event < |rows| == |after|
    && e.plan == ApplyPlan(rows[e.event].payload)
    && Attempted(rows[e.event], after[e.event], e, clock)
  }

  ghost predicate Appended(w: World, t: World, at: seq<nat>) {
    && |t.log| == |w.log| + |at| && t.log[..|w.log|] == w.log
    && forall k :: |w.log| <= k < |t.log| ==>
      t.log[k].event == at[k - |w.log|] && Recorded(w.rows, t.rows, t.log[k], w.clock)
  }

  lemma RetryRowAttempts(env: Env, w: World, i: nat)
    requires !env.dtm && i < |w.rows|
    ensures var (t, ok) := RetryRow(env, w, i);
      Appended(w, t, [i]) && ok == Succeeded(t.log[|w.log|])
  {
    hide ApplyPlan, Reach;
    RetryRowDirect(env, w, i);
  }

  lemma RecordedStays(w: World, w1: World, t: World, e: Entry, i: nat)
    requires Recorded(w.rows, w1.rows, e, w.clock) && e.event != i && Touches(w1, t, [i])
    ensures Recorded(w.rows, t.rows, e, w.clock)
  {
    hide Attempted, ApplyPlan;
  }

  lemma RecordedFromStart(w: World, w1: World, t: World, e: Entry, at: seq<nat>)
    requires Recorded(w1.rows, t.rows, e, w1.clock) && Touches(w, w1, at) && e.event !in at
    ensures Recorded(w.rows, t.rows, e, w.clock)
  {
    hide Attempted, ApplyPlan;
  }

  lemma AppendedOne(w: World, w1: World, t: World, at: seq<nat>, i: nat)
    requires Appended(w, w1, at) && Touches(w, w1, at) && Appended(w1, t, [i]) && Touches(w1, t, [i]) && i !in at
    ensures Appended(w, t, at + [i])
  {
    hide Recorded;
    assert forall k :: 0 <= k < |w1.log| ==> t.log[k] == t.log[..|w1.log|][k] == w1.log[k];
    forall k | |w.log| <= k < |t.log|
      ensures t.log[k].event == (at + [i])[k - |w.log|] && Recorded(w.rows, t.rows, t.log[k], w.clock)
    {
      if k < |w1.log| {
        assert t.log[k].event == at[k - |w.log|];
        RecordedStays(w, w1, t, w1.log[k], i);
      } else {
        assert t.log[k].event == [i][k - |w1.log|];
        RecordedFromStart(w, w1, t, t.log[k], at);
      }
    }
    assert t.log[..|w.log|] == w1.log[..|w.log|];
  }

  lemma OneMoreSucceeded(log: seq<Entry>, t: seq<Entry>, start: nat)
    requires start <= |log| && |t| == |log| + 1 && t[..|log|] == log
    ensures |SucceededAt(t, start)| == |SucceededAt(log, start)| + (if Succeeded(t[|log|]) then 1 else 0)
  {
    hide Succeeded;
    assert forall k :: 0 <= k < |log| ==> t[k] == t[..|log|][k] == log[k];
    assert SucceededAt(t, start) == SucceededAt(log, start) + (if Succeeded(t[|log|]) then {|log|} else {});
  }

  lemma {:induction false} RetryRowsAttempt(env: Env, w: World, at: seq<nat>)
    requires !env.dtm
    requires forall k :: 0 <= k < |at| ==> at[k] < |w.rows|
    requires forall k, l :: 0 <= k < l < |at| ==> at[k] != at[l]
    ensures var (t, processed) := RetryRows(env, w, at);
      Appended(w, t, at) && processed == |SucceededAt(t.log, |w.log|)|
    decreases |at|
  {
    hide RetryRow, Recorded, Succeeded, Touches;
    if at == [] {
      assert SucceededAt(w.log, |w.log|) == {};
    } else {
      var n := |at| - 1;
      var w1 := RetryRows(env, w, at[..n]).0;
      RetryRowsAttempt(env, w, at[..n]);
      RetryRowsTouch(env, w, at[..n]);
      RetryRowAttempts(env, w1, at[n]);
      RetryRowTouches(env, w1, at[n]);
      var t := RetryRow(env, w1, at[n]).0;
      AppendedOne(w, w1, t, at[..n], at[n]);
      assert at == at[..n] + [at[n]];
      OneMoreSucceeded(w1.log, t.log, |w.log|);
    }
  }

  /** In direct mode one retry attempts, oldest first and each once, exactly the
      oldest overdue rows, as many as the limit allows; it reports how many
      attempts went through, and a failed one puts its row off by a minute. */
  lemma RetryTakesTheOldest(env: Env, w: World, limit: int)
    requires !env.dtm
    ensures var (t, processed) := RetryOnce(env, w, limit);
      && w.log <= t.log
      && (forall k, l :: |w.log| <= k < l < |t.log| ==> t.log[k].event < t.log[l].event)
      && (forall k :: |w.log| <= k < |t.log| ==> t.log[k].event in Overdue(w))
      && (forall k, i :: |w.log| <= k < |t.log| && i in Overdue(w) && i < t.log[k].event ==>
            exists l :: |w.log| <= l < k && t.log[l].event == i)
      && |t.log| - |w.log| == (var most := if 0 < limit <= 200 then limit else 50;
            if |Overdue(w)| <= most then |Overdue(w)| else most)
      && processed == |SucceededAt(t.log, |w.log|)|
      && (forall k :: |w.log| <= k < |t.log| ==>
            Recorded(w.rows, t.rows, t.log[k], w.clock))
  {
    hide Recorded, SucceededAt, Selected, Overdue, Taken, RetryRow;
    var at := Selected(w.rows, w.clock, limit);
    SelectedIsTaken(w, limit);
    RetryRowsAttempt(env, w, at);
    var t := RetryRows(env, w, at).0;
    forall k | |w.log| <= k < |t.log|
      ensures t.log[k].event in Overdue(w)
    {
      assert at[k - |w.log|] in at;
      TakenIsOverdue(w, limit, t.log[k].event);
    }
    forall k, i | |w.log| <= k < |t.log| && i in Overdue(w) && i < t.log[k].event
      ensures exists l :: |w.log| <= l < k && t.log[l].event == i
    {
      assert at[k - |w.log|] in at;
      OlderIsTaken(w, limit, i, t.log[k].event);
      var l :| 0 <= l < |at| && at[l] == i;
      assert t.log[|w.log| + l].event == i;
    }
    assert w.log == t.log[..|w.log|];
  }

  lemma TakenIsOverdue(w: World, limit: int, i: nat)
    requires Taken(w, limit, i)
    ensures i in Overdue(w)
  {
  }

  lemma OlderIsTaken(w: World, limit: int, i: nat, j: nat)
    requires Taken(w, limit, j) && i in Overdue(w) && i < j
    ensures Taken(w, limit, i)
  {
    hide Late;
    assert Before(w, i) <= Before(w, j);
    SubsetCard(Before(w, i), Before(w, j));
  }

  lemma SubsetCard(a: set<nat>, b: set<nat>)
    requires a <= b
    ensures |a| <= |b|
  {
    assert b == a + (b - a);
  }

  ghost predicate ByCreation(rows: seq<Row>) {
    forall i, j :: 0 <= i < j < |rows| ==> rows[i].createdAt <= rows[j].createdAt
  }

  lemma CreatedInOrder(env: Env, s: Store, steps: seq<Step>)
    ensures ByCreation(AfterRun(env, Fresh(s), steps).rows)
  {
    hide AfterRun, Replay, ValidEntry, TimelyRow, BackedRow;
    EveryRunIsGood(env, s, steps);
  }

  /** Entry k of the retry attempts a row that was created later than row i. */
  ghost predicate AttemptsLaterThan(w: World, t: World, i: nat, k: nat) {
    && i in Overdue(w) && i < |w.rows| && |w.log| <= k < |t.log|
    && t.log[k].event < |w.rows| && w.rows[i].createdAt < w.rows[t.log[k].event].createdAt
  }

  /** In a reachable world: a row attempted by a retry while an overdue one is
      older by creation time has that one attempted before it. */
  lemma OlderAttemptedFirst(env: Env, s: Store, steps: seq<Step>, limit: int, i: nat, k: nat)
    requires !env.dtm
    requires var w := AfterRun(env, Fresh(s), steps); AttemptsLaterThan(w, RetryOnce(env, w, limit).0, i, k)
    ensures var w := AfterRun(env, Fresh(s), steps);
      exists l :: |w.log| <= l < k && RetryOnce(env, w, limit).0.log[l].event == i
  {
    hide AfterRun, RetryOnce, Overdue, Recorded;
    CreatedInOrder(env, s, steps);
    RetryTakesTheOldest(env, AfterRun(env, Fresh(s), steps), limit);
  }

  // ---------- through DTM ----------

  lemma {:induction false} RetryRowsSubmit(env: Env, w: World, at: seq<nat>)
    requires env.dtm && forall c :: !env.dtmFails(c)
    requires forall k :: 0 <= k < |at| ==> at[k] < |w.rows|
    ensures var (t, processed) := RetryRows(env, w, at);
      && t.tuples == w.tuples && t.log == w.log && t.clock == w.clock && processed == |at|
      && (forall i :: 0 <= i < |w.rows| ==>
            t.rows[i] == if i in at then w.rows[i].(status := Submitted) else w.rows[i])
    decreases |at|
  {
    if at != [] {
      var n := |at| - 1;
      RetryRowsSubmit(env, w, at[..n]);
      assert at == at[..n] + [at[n]];
    }
  }

  /** Through a DTM that answers, one retry submits exactly the oldest overdue
      rows again and touches nothing else; no tuple is written. */
  lemma DtmRetrySubmits(env: Env, w: World, limit: int)
    requires env.dtm && forall c :: !env.dtmFails(c)
    ensures var (t, processed) := RetryOnce(env, w, limit);
      && t.tuples == w.tuples && t.log == w.log && t.clock == w.clock && |t.rows| == |w.rows|
      && (forall i :: 0 <= i < |w.rows| ==>
            t.rows[i] == if Taken(w, limit, i) then w.rows[i].(status := Submitted) else w.rows[i])
      && processed == |TakenSet(w, limit)|
  {
    hide Selected, Taken, TakenSet, RetryRow;
    SelectedIsTaken(w, limit);
    RetryRowsSubmit(env, w, Selected(w.rows, w.clock, limit));
  }

  /** No callback for this row. */
  predicate NoCallback(steps: seq<Step>, i: nat) {
    forall k :: 0 <= k < |steps| ==> steps[k] != Applying(i) && steps[k] != Compensating(i)
  }

  /** The row is as it was, and was not attempted meanwhile. */
  ghost predicate Untouched(w: World, t: World, i: nat) {
    && i < |w.rows| <= |t.rows| && t.rows[i] == w.rows[i] && w.log <= t.log
    && forall k :: |w.log| <= k < |t.log| ==> t.log[k].event != i
  }

  lemma SubmitTouches(env: Env, w: World, n: nat, i: nat)
    requires n < |w.rows| && i < |w.rows| && i != n
    ensures Untouched(w, Submit(env, w, n).0, i)
  {
    hide Run, ApplyPlan;
  }

  lemma DispatchTouches(env: Env, w: World, payload: Payload, i: nat)
    requires i < |w.rows|
    ensures Untouched(w, Dispatch(env, w, payload).0, i)
  {
    hide Submit, Normalize;
    var q := Normalize(payload);
    if !Empty(q) {
      SubmitTouches(env, w.(rows := w.rows + [NewRow(q, w.clock)]), |w.rows|, i);
    }
  }

  lemma StepLeavesFinished(env: Env, w: World, step: Step, i: nat)
    requires i < |w.rows| && w.rows[i].status in {Synced, Archived}
    requires step != Applying(i) && step != Compensating(i)
    ensures Untouched(w, Next(env, w, step), i)
  {
    hide RetryOnce, Dispatch, Run, ApplyPlan, CompensatePlan;
    match step
    case Dispatching(payload) => DispatchTouches(env, w, payload, i);
    case Retrying(limit) => RetryLeavesOthersAlone(env, w, limit, i);
    case Waiting(_) =>
    case Reading(_) =>
    case Applying(_) =>
    case Compensating(_) =>
  }

  lemma {:induction false} RunLeavesFinished(env: Env, w: World, steps: seq<Step>, i: nat)
    requires i < |w.rows| && w.rows[i].status in {Synced, Archived} && NoCallback(steps, i)
    ensures Untouched(w, AfterRun(env, w, steps), i)
    decreases |steps|
  {
    hide Next;
    if steps != [] {
      var n := |steps| - 1;
      RunLeavesFinished(env, w, steps[..n], i);
      StepLeavesFinished(env, AfterRun(env, w, steps[..n]), steps[n], i);
    }
  }

  /** In any mode: once the last attempt at a row has run its compensation
      through all its calls, the row is archived, and until its next callback
      nothing changes it, submits it again or attempts it. */
  lemma CompensatedStaysUndone(env: Env, s: Store, steps: seq<Step>, i: nat, later: seq<Step>)
    requires var w := AfterRun(env, Fresh(s), steps);
      i < |w.rows| && EndedWith(w.log, i, CompensatePlan(w.rows[i].payload))
    requires NoCallback(later, i)
    ensures var w := AfterRun(env, Fresh(s), steps);
      w.rows[i].status == Archived && Untouched(w, AfterRun(env, w, later), i)
  {
    hide AfterRun, Replay, CompensatePlan, ApplyPlan, EndedWith, NoCallback, Untouched;
    var w := AfterRun(env, Fresh(s), steps);
    EveryRunIsGood(env, s, steps);
    assert BackedRow(w.rows[i], i, w.log);
    RunLeavesFinished(env, w, later, i);
  }

  /** The same for a row whose last attempt was a whole application. */
  lemma AppliedStaysDone(env: Env, s: Store, steps: seq<Step>, i: nat, later: seq<Step>)
    requires var w := AfterRun(env, Fresh(s), steps);
      i < |w.rows| && EndedWith(w.log, i, ApplyPlan(w.rows[i].payload))
    requires NoCallback(later, i)
    ensures var w := AfterRun(env, Fresh(s), steps);
      w.rows[i].status == Synced && Untouched(w, AfterRun(env, w, later), i)
  {
    hide AfterRun, Replay, CompensatePlan, ApplyPlan, EndedWith, NoCallback, Untouched;
    var w := AfterRun(env, Fresh(s), steps);
    EveryRunIsGood(env, s, steps);
    assert BackedRow(w.rows[i], i, w.log);
    RunLeavesFinished(env, w, later, i);
  }

  /** Every other row is tried again: it is overdue within a minute. */
  lemma UnfinishedIsOverdueSoon(env: Env, s: Store, steps: seq<Step>, i: nat)
    requires i < |AfterRun(env, Fresh(s), steps).rows|
    ensures var w := AfterRun(env, Fresh(s), steps);
      i in Overdue(w.(clock := w.clock + 60))
      <==> !EndedWith(w.log, i, ApplyPlan(w.rows[i].payload))
           && !EndedWith(w.log, i, CompensatePlan(w.rows[i].payload))
  {
    hide AfterRun, Replay, CompensatePlan, ApplyPlan, EndedWith;
    var w := AfterRun(env, Fresh(s), steps);
    EveryRunIsGood(env, s, steps);
    assert BackedRow(w.rows[i], i, w.log) && TimelyRow(w.rows[i], w.clock);
  }

  /** A compensation that stops part way leaves the row failed, and once a minute
      has passed a retry that takes it submits the event for application again. */
  lemma FailedUndoIsSubmittedAgain(env: Env, w: World, i: nat, limit: int)
    requires env.dtm && (forall c :: !env.dtmFails(c)) && i < |w.rows|
    requires var log := Next(env, w, Compensating(i)).log;
      log != [] && !Succeeded(log[|log| - 1])
    ensures var t := Next(env, Next(env, w, Compensating(i)), Waiting(60));
      && t.rows[i].status == Failed && i in Overdue(t)
      && (Taken(t, limit, i) ==> RetryOnce(env, t, limit).0.rows[i].status == Submitted)
  {
    hide RetryOnce, CompensatePlan, Taken, Reach;
    var w1 := Next(env, w, Compensating(i));
    var t := Next(env, w1, Waiting(60));
    assert w1.rows[i] == FailedRow(w.rows[i], w.clock);
    DtmRetrySubmits(env, t, limit);
  }

  predicate NoCallbacks(steps: seq<Step>) {
    forall k :: 0 <= k < |steps| ==> !steps[k].Applying? && !steps[k].Compensating?
  }

  /** What a run through DTM has done before any callback: nothing to the store,
      and every row is still to be tried; submitted if DTM always answered, not
      submitted if it never did. */
  ghost predicate OnlySubmitted(env: Env, s: Store, w: World) {
    && w.tuples == s && w.log == []
    && (forall i :: 0 <= i < |w.rows| ==> w.rows[i].status in {Pending, Submitted, Failed})
    && ((forall c :: !env.dtmFails(c)) ==>
          forall i :: 0 <= i < |w.rows| ==> w.rows[i].status == Submitted && w.rows[i].retryCount == 0)
    && ((forall c :: env.dtmFails(c)) ==> forall i :: 0 <= i < |w.rows| ==> w.rows[i].status != Submitted)
  }

  lemma {:induction false} RetryRowsOnlySubmit(env: Env, s: Store, w: World, at: seq<nat>)
    requires env.dtm && OnlySubmitted(env, s, w)
    requires forall k :: 0 <= k < |at| ==> at[k] < |w.rows|
    ensures OnlySubmitted(env, s, RetryRows(env, w, at).0)
    decreases |at|
  {
    if at != [] {
      RetryRowsOnlySubmit(env, s, w, at[..|at| - 1]);
    }
  }

  lemma DispatchOnlySubmits(env: Env, s: Store, w: World, payload: Payload)
    requires env.dtm && OnlySubmitted(env, s, w)
    ensures OnlySubmitted(env, s, Dispatch(env, w, payload).0)
  {
    hide Normalize;
  }

  lemma NothingSubmitted(env: Env, s: Store)
    ensures OnlySubmitted(env, s, Fresh(s))
  {
  }

  lemma {:induction false} DtmRunOnlySubmits(env: Env, s: Store, steps: seq<Step>)
    requires env.dtm && NoCallbacks(steps)
    ensures OnlySubmitted(env, s, AfterRun(env, Fresh(s), steps))
    decreases |steps|
  {
    hide OnlySubmitted, Dispatch;
    if steps == [] {
      NothingSubmitted(env, s);
    } else {
      var n := |steps| - 1;
      DtmRunOnlySubmits(env, s, steps[..n]);
      var w := AfterRun(env, Fresh(s), steps[..n]);
      match steps[n]
      case Dispatching(payload) => DispatchOnlySubmits(env, s, w, payload);
      case Retrying(limit) => RetryRowsOnlySubmit(env, s, w, Selected(w.rows, w.clock, limit));
      case Waiting(seconds) => ClockKeepsOnlySubmitted(env, s, w, w.clock + seconds, w.calls);
      case Reading(times) => ClockKeepsOnlySubmitted(env, s, w, w.clock, w.calls + times);
      case Applying(_) =>
      case Compensating(_) =>
    }
  }

  lemma ClockKeepsOnlySubmitted(env: Env, s: Store, w: World, clock: nat, calls: nat)
    requires OnlySubmitted(env, s, w)
    ensures OnlySubmitted(env, s, w.(clock := clock, calls := calls))
  {
  }

  /** A dispatched event that is recorded is due for a retry a minute later and not
      before, unless its application has gone through. */
  lemma NewEventDue(env: Env, w: World, payload: Payload, d: nat)
    requires !Empty(Normalize(payload))
    ensures var (t, ok), i := Dispatch(env, w, payload), |w.rows|;
      && |t.rows| == i + 1 && t.rows[..i] == w.rows
      && t.rows[i].payload == Normalize(payload) && t.rows[i].createdAt == w.clock
      && (i in Overdue(t.(clock := w.clock + d)) <==> d >= 60 && (env.dtm || !ok))
  {
    hide Normalize, ApplyPlan;
  }

  /** Dispatched through DTM an event is recorded and no tuple written. It counts as
      submitted once DTM has given an id, even if the saga is then refused, and the
      dispatch succeeds only if neither fails. */
  lemma DtmDispatchOutcome(env: Env, w: World, payload: Payload)
    requires env.dtm && !Empty(Normalize(payload))
    ensures var (t, ok), named := Dispatch(env, w, payload), !env.dtmFails(w.dtmCalls);
      && t.tuples == w.tuples && t.log == w.log && |t.rows| == |w.rows| + 1
      && t.rows[|w.rows|].status == (if named then Submitted else Pending) && t.rows[|w.rows|].retryCount == 0
      && (ok <==> named && !env.dtmFails(w.dtmCalls + 1))
  {
    hide Normalize;
  }
}
