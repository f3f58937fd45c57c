/** Every run of the dispatcher: what its statuses mean, that the table only
    grows, and that direct-mode retries bring the store to the settled state. */
module DispatcherRuns {
  import opened Text
  import opened Relationships
  import opened Projection
  import opened Dispatcher

  datatype Step =
    | Dispatching(payload: Payload)
    | Retrying(limit: int)
    | Waiting(seconds: nat)
    | Reading(times: nat)      // of the store, for compensation data
    | Applying(row: nat)       // a DTM callback, at any time and any number of times
    | Compensating(row: nat)

  ghost function Next(env: Env, w: World, step: Step): World {
    match step
    case Dispatching(payload) => Dispatch(env, w, payload).0
    case Retrying(limit) => RetryOnce(env, w, limit).0
    case Waiting(seconds) => w.(clock := w.clock + seconds)
    case Reading(times) => w.(calls := w.calls + times)
    case Applying(i) => if i < |w.rows| then ApplyBranch(env, w, i).0 else w
    case Compensating(i) => if i < |w.rows| then CompensateBranch(env, w, i).0 else w
  }

  ghost function AfterRun(env: Env, w: World, steps: seq<Step>): World {
    if steps == [] then w
    else Next(env, AfterRun(env, w, steps[..|steps| - 1]), steps[|steps| - 1])
  }

  function Fresh(s: Store): World {
    World([], s, 0, 0, 0, [])
  }

  // ---------- what a retry takes and touches ----------

  /** A retry touches the selected rows only: no other row changes, and every
      new attempt is an attempt at a selected row. */
  ghost predicate Touches(w: World, w1: World, at: seq<nat>) {
    && |w1.rows| == |w.rows| && w1.clock == w.clock
    && (forall i :: 0 <= i < |w.rows| ==> w1.rows[i].payload == w.rows[i].payload)
    && (forall i :: 0 <= i < |w.rows| && i !in at ==> w1.rows[i] == w.rows[i])
    && w.log <= w1.log
    && (forall k :: |w.log| <= k < |w1.log| ==> w1.log[k].event in at)
  }

  lemma RetryRowTouches(env: Env, w: World, i: nat)
    requires i < |w.rows|
    ensures Touches(w, RetryRow(env, w, i).0, [i])
  {
    hide Run, ApplyPlan;
  }

  lemma {:induction false} RetryRowsTouch(env: Env, w: World, at: seq<nat>)
    requires forall k :: 0 <= k < |at| ==> at[k] < |w.rows|
    ensures Touches(w, RetryRows(env, w, at).0, at)
    decreases |at|
  {
    hide RetryRow;
    if at != [] {
      var n := |at| - 1;
      RetryRowsTouch(env, w, at[..n]);
      RetryRowTouches(env, RetryRows(env, w, at[..n]).0, at[n]);
      assert at == at[..n] + [at[n]];
    }
  }

  lemma {:induction false} DueFacts(rows: seq<Row>, now: nat)
    ensures forall k :: 0 <= k < |Due(rows, now)| ==> IsDue(rows[Due(rows, now)[k]], now)
    ensures forall k, l :: 0 <= k < l < |Due(rows, now)| ==> Due(rows, now)[k] < Due(rows, now)[l]
    ensures forall i :: 0 <= i < |rows| && IsDue(rows[i], now) ==> i in Due(rows, now)
  {
    if rows != [] {
      var n := |rows| - 1;
      DueFacts(rows[..n], now);
    }
  }

  lemma SelectedFacts(rows: seq<Row>, now: nat, limit: int)
    ensures var at := Selected(rows, now, limit);
      && (forall k :: 0 <= k < |at| ==> IsDue(rows[at[k]], now))
      && (forall k, l :: 0 <= k < l < |at| ==> at[k] != at[l])
  {
    DueFacts(rows, now);
  }

  // ---------- what holds in every reachable world ----------

  function Replay(s: Store, log: seq<Entry>): Store {
    if log == [] then s
    else
      var e := log[|log| - 1];
      var before := Replay(s, log[..|log| - 1]);
      if e.steps <= Steps(e.plan) then After(before, e.plan, e.steps) else before
  }

  ghost predicate ValidEntry(rows: seq<Row>, e: Entry) {
    && e.event < |rows|
    && e.steps <= Steps(e.plan)
    && (e.plan == ApplyPlan(rows[e.event].payload) || e.plan == CompensatePlan(rows[e.event].payload))
  }

  function Last(log: seq<Entry>, i: nat): Option<Entry> {
    if log == [] then None
    else if log[|log| - 1].event == i then Some(log[|log| - 1])
    else Last(log[..|log| - 1], i)
  }

  ghost predicate EndedWith(log: seq<Entry>, i: nat, plan: Plan) {
    plan != Unsupported && Last(log, i) == Some(Entry(i, plan, Steps(plan)))
  }

  ghost predicate TimelyRow(row: Row, clock: nat) {
    && row.createdAt <= clock
    && row.nextRunAt.Some? && row.nextRunAt.value <= clock + MINUTE
  }

  ghost predicate BackedRow(row: Row, i: nat, log: seq<Entry>) {
    && row.status != Projecting
    && (row.status == Synced <==> EndedWith(log, i, ApplyPlan(row.payload)))
    && (row.status == Archived <==> EndedWith(log, i, CompensatePlan(row.payload)))
  }

  /** A row is synced exactly when its last attempt was a whole application, and
      archived exactly when it was a whole compensation; no row's next attempt is
      set more than a minute ahead, no row is left projecting, rows are in the
      order of their creation, and the store is the effect of the attempts made. */
  ghost predicate Good(s: Store, w: World) {
    && (forall e :: e in w.log ==> ValidEntry(w.rows, e))
    && w.tuples == Replay(s, w.log)
    && (forall i :: 0 <= i < |w.rows| ==> TimelyRow(w.rows[i], w.clock))
    && (forall i, j :: 0 <= i < j < |w.rows| ==> w.rows[i].createdAt <= w.rows[j].createdAt)
    && (forall i :: 0 <= i < |w.rows| ==> BackedRow(w.rows[i], i, w.log))
  }

  lemma LastAppend(log: seq<Entry>, e: Entry, i: nat)
    ensures Last(log + [e], i) == if e.event == i then Some(e) else Last(log, i)
  {
    assert (log + [e])[..|log|] == log;
  }

  lemma ExecutedKeepsGood(env: Env, s: Store, w: World, i: nat, plan: Plan, row: Row)
    requires Good(s, w) && i < |w.rows|
    requires plan == ApplyPlan(w.rows[i].payload) || plan == CompensatePlan(w.rows[i].payload)
    requires row.payload == w.rows[i].payload && row.createdAt == w.rows[i].createdAt && TimelyRow(row, w.clock)
    requires BackedRow(row, i, Executed(env, w, i, plan, row).log)
    ensures Good(s, Executed(env, w, i, plan, row))
  {
    var w1 := Executed(env, w, i, plan, row);
    var e := Entry(i, plan, Run(plan, w.tuples, env.fails, w.calls).steps);
    assert w1.log[..|w.log|] == w.log;
    forall x | x in w1.log
      ensures ValidEntry(w1.rows, x)
    {
      assert x != e ==> ValidEntry(w.rows, x);
    }
    forall j | 0 <= j < |w1.rows|
      ensures BackedRow(w1.rows[j], j, w1.log)
    {
      if j != i {
        assert BackedRow(w.rows[j], j, w.log);
        LastAppend(w.log, e, j);
      }
    }
  }

  lemma ApplyBranchKeepsGood(env: Env, s: Store, w: World, i: nat)
    requires Good(s, w) && i < |w.rows|
    ensures Good(s, ApplyBranch(env, w, i).0)
  {
    var plan := ApplyPlan(w.rows[i].payload);
    var o := Run(plan, w.tuples, env.fails, w.calls);
    LastAppend(w.log, Entry(i, plan, o.steps), i);
    assert TimelyRow(w.rows[i], w.clock);
    ExecutedKeepsGood(env, s, w, i, plan, BranchRow(w.rows[i], o.ok, Synced, w.clock));
  }

  lemma CompensateBranchKeepsGood(env: Env, s: Store, w: World, i: nat)
    requires Good(s, w) && i < |w.rows|
    ensures Good(s, CompensateBranch(env, w, i).0)
  {
    var plan := CompensatePlan(w.rows[i].payload);
    var o := Run(plan, w.tuples, env.fails, w.calls);
    LastAppend(w.log, Entry(i, plan, o.steps), i);
    assert TimelyRow(w.rows[i], w.clock);
    ExecutedKeepsGood(env, s, w, i, plan, BranchRow(w.rows[i], o.ok, Archived, w.clock));
  }

  predicate Open(row: Row) {
    row.status == Pending || row.status == Submitted || row.status == Failed
  }

  /** Changing one row between statuses that claim nothing keeps the invariant. */
  lemma RowChangeKeepsGood(s: Store, w: World, i: nat, row: Row, dtmCalls: nat)
    requires Good(s, w) && i < |w.rows|
    requires row.payload == w.rows[i].payload && row.createdAt == w.rows[i].createdAt && TimelyRow(row, w.clock)
    requires Open(w.rows[i]) && Open(row)
    ensures Good(s, w.(rows := w.rows[i := row], dtmCalls := dtmCalls))
  {
    var w1 := w.(rows := w.rows[i := row], dtmCalls := dtmCalls);
    forall e | e in w1.log
      ensures ValidEntry(w1.rows, e)
    {
      assert ValidEntry(w.rows, e);
    }
  }

  lemma SubmitKeepsGood(env: Env, s: Store, w: World, i: nat)
    requires Good(s, w) && i < |w.rows| && Open(w.rows[i])
    ensures Good(s, Submit(env, w, i).0)
  {
    assert TimelyRow(w.rows[i], w.clock);
    if !env.dtm {
      ApplyBranchKeepsGood(env, s, w, i);
    } else if !env.dtmFails(w.dtmCalls) {
      RowChangeKeepsGood(s, w, i, w.rows[i].(status := Submitted), w.dtmCalls + 2);
    }
  }

  lemma RetryRowKeepsGood(env: Env, s: Store, w: World, i: nat)
    requires Good(s, w) && i < |w.rows| && Open(w.rows[i])
    ensures Good(s, RetryRow(env, w, i).0)
  {
    SubmitKeepsGood(env, s, w, i);
    var (w1, ok) := Submit(env, w, i);
    assert TimelyRow(w1.rows[i], w1.clock);
    if !ok {
      RowChangeKeepsGood(s, w1, i, FailedRow(w1.rows[i], w1.clock), w1.dtmCalls);
    }
  }

  lemma {:induction false} RetryRowsKeepGood(env: Env, s: Store, w: World, at: seq<nat>)
    requires Good(s, w)
    requires forall k :: 0 <= k < |at| ==> at[k] < |w.rows| && Open(w.rows[at[k]])
    requires forall k, l :: 0 <= k < l < |at| ==> at[k] != at[l]
    ensures Good(s, RetryRows(env, w, at).0)
    decreases |at|
  {
    hide RetryRow, Good;
    if at != [] {
      var n := |at| - 1;
      RetryRowsKeepGood(env, s, w, at[..n]);
      RetryRowsTouch(env, w, at[..n]);
      RetryRowKeepsGood(env, s, RetryRows(env, w, at[..n]).0, at[n]);
    }
  }

  lemma {:induction false} NeverAttempted(log: seq<Entry>, i: nat)
    requires forall e :: e in log ==> e.event != i
    ensures Last(log, i) == None
  {
    if log != [] {
      NeverAttempted(log[..|log| - 1], i);
    }
  }

  lemma NewRowKeepsGood(s: Store, w: World, q: Payload)
    requires Good(s, w)
    ensures Good(s, w.(rows := w.rows + [NewRow(q, w.clock)]))
  {
    hide Replay, Last, ApplyPlan, CompensatePlan, Steps;
    var w1 := w.(rows := w.rows + [NewRow(q, w.clock)]);
    forall e | e in w1.log
      ensures ValidEntry(w1.rows, e) && e.event < |w.rows|
    {
      assert ValidEntry(w.rows, e);
    }
    NeverAttempted(w.log, |w.rows|);
    forall i | 0 <= i < |w1.rows|
      ensures TimelyRow(w1.rows[i], w1.clock) && w1.rows[i].createdAt <= w.clock && BackedRow(w1.rows[i], i, w1.log)
    {
      if i < |w.rows| {
        assert TimelyRow(w.rows[i], w.clock) && BackedRow(w.rows[i], i, w.log);
      }
    }
  }

  lemma DispatchKeepsGood(env: Env, s: Store, w: World, payload: Payload)
    requires Good(s, w)
    ensures Good(s, Dispatch(env, w, payload).0)
  {
    var q := Normalize(payload);
    if !Empty(q) {
      NewRowKeepsGood(s, w, q);
      SubmitKeepsGood(env, s, w.(rows := w.rows + [NewRow(q, w.clock)]), |w.rows|);
    }
  }

  lemma NextKeepsGood(env: Env, s: Store, w: World, step: Step)
    requires Good(s, w)
    ensures Good(s, Next(env, w, step))
  {
    match step
    case Dispatching(payload) => DispatchKeepsGood(env, s, w, payload);
    case Retrying(limit) =>
      SelectedFacts(w.rows, w.clock, limit);
      RetryRowsKeepGood(env, s, w, Selected(w.rows, w.clock, limit));
    case Waiting(seconds) =>
      assert forall i :: 0 <= i < |w.rows| ==> TimelyRow(w.rows[i], w.clock) ==>
          TimelyRow(w.rows[i], w.clock + seconds);
    case Reading(_) =>
    case Applying(i) => if i < |w.rows| { ApplyBranchKeepsGood(env, s, w, i); }
    case Compensating(i) => if i < |w.rows| { CompensateBranchKeepsGood(env, s, w, i); }
  }

  /** In every run, direct or through DTM, whatever fails and however often
      branches are called back. */
  lemma {:induction false} EveryRunIsGood(env: Env, s: Store, steps: seq<Step>)
    ensures Good(s, AfterRun(env, Fresh(s), steps))
    decreases |steps|
  {
    if steps != [] {
      EveryRunIsGood(env, s, steps[..|steps| - 1]);
      NextKeepsGood(env, s, AfterRun(env, Fresh(s), steps[..|steps| - 1]), steps[|steps| - 1]);
    }
  }
}
