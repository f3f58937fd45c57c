/** IdentityProjectionDispatcher: the event table, direct or DTM submission,
    the branch callbacks, and the retry loop, as a state machine and as a class
    proved equal to it. */
module Dispatcher {
  import opened Text
  import opened Relationships
  import opened Projection

  datatype Status = Pending | Submitted | Projecting | Synced | Failed | Archived

  datatype Row = Row(payload: Payload, status: Status, retryCount: nat, nextRunAt: Option<nat>, createdAt: nat)

  /** History: one application (or compensation) of an event and how many store
      calls of its plan succeeded. */
  datatype Entry = Entry(event: nat, plan: Plan, steps: nat)

  /** An event id is the position of its row. */
  datatype World = World(rows: seq<Row>, tuples: Store, calls: nat, dtmCalls: nat, clock: nat, log: seq<Entry>)

  datatype Env = Env(fails: nat -> bool, dtm: bool, dtmFails: nat -> bool)

  const MINUTE: nat := 60

  // ---------- the state machine ----------

  function Mark(w: World, i: nat, status: Status): World
    requires i < |w.rows|
  {
    w.(rows := w.rows[i := w.rows[i].(status := status)])
  }

  function FailedRow(row: Row, now: nat): Row {
    row.(status := Failed, nextRunAt := Some(now + MINUTE), retryCount := row.retryCount + 1)
  }

  function MarkFailure(w: World, i: nat): World
    requires i < |w.rows|
  {
    w.(rows := w.rows[i := FailedRow(w.rows[i], w.clock)])
  }

  function BranchRow(row: Row, ok: bool, done: Status, clock: nat): Row {
    if ok then row.(status := done) else FailedRow(row, clock)
  }

  /** A plan of row i is executed, after which the row is replaced. */
  function Executed(env: Env, w: World, i: nat, plan: Plan, row: Row): World
    requires i < |w.rows|
  {
    var o := Run(plan, w.tuples, env.fails, w.calls);
    World(w.rows[i := row], o.tuples, o.calls, w.dtmCalls, w.clock, w.log + [Entry(i, plan, o.steps)])
  }

  ghost function ApplyBranch(env: Env, w: World, i: nat): (World, bool)
    requires i < |w.rows|
  {
    var plan := ApplyPlan(w.rows[i].payload);
    var ok := Run(plan, w.tuples, env.fails, w.calls).ok;
    (Executed(env, w, i, plan, BranchRow(w.rows[i], ok, Synced, w.clock)), ok)
  }

  ghost function CompensateBranch(env: Env, w: World, i: nat): (World, bool)
    requires i < |w.rows|
  {
    var plan := CompensatePlan(w.rows[i].payload);
    var ok := Run(plan, w.tuples, env.fails, w.calls).ok;
    (Executed(env, w, i, plan, BranchRow(w.rows[i], ok, Archived, w.clock)), ok)
  }

  ghost function Submit(env: Env, w: World, i: nat): (World, bool)
    requires i < |w.rows|
  {
    if env.dtm then
      if env.dtmFails(w.dtmCalls) then (w.(dtmCalls := w.dtmCalls + 1), false)
      else (Mark(w, i, Submitted).(dtmCalls := w.dtmCalls + 2), !env.dtmFails(w.dtmCalls + 1))
    else ApplyBranch(env, w, i)
  }

  function NewRow(q: Payload, now: nat): Row {
    Row(q, Pending, 0, Some(now + MINUTE), now)
  }

  ghost function Dispatch(env: Env, w: World, payload: Payload): (World, bool) {
    var q := Normalize(payload);
    if Empty(q) then (w, true)
    else Submit(env, w.(rows := w.rows + [NewRow(q, w.clock)]), |w.rows|)
  }

  predicate IsDue(row: Row, now: nat) {
    && (row.status == Pending || row.status == Submitted || row.status == Failed)
    && (row.nextRunAt == None || row.nextRunAt.value <= now)
  }

  /** The due rows, oldest first. */
  function Due(rows: seq<Row>, now: nat): (at: seq<nat>)
    ensures forall k :: 0 <= k < |at| ==> at[k] < |rows|
  {
    if rows == [] then []
    else
      var n := |rows| - 1;
      Due(rows[..n], now) + (if IsDue(rows[n], now) then [n] else [])
  }

  function Limit(limit: int): nat {
    if limit <= 0 || limit > 200 then 50 else limit
  }

  function Selected(rows: seq<Row>, now: nat, limit: int): (at: seq<nat>)
    ensures forall k :: 0 <= k < |at| ==> at[k] < |rows|
  {
    var due := Due(rows, now);
    if |due| <= Limit(limit) then due else due[..Limit(limit)]
  }

  ghost function RetryRow(env: Env, w: World, i: nat): (r: (World, bool))
    requires i < |w.rows|
    ensures |r.0.rows| == |w.rows|
  {
    var (w1, ok) := Submit(env, w, i);
    (if ok then w1 else MarkFailure(w1, i), ok)
  }

  ghost function RetryRows(env: Env, w: World, at: seq<nat>): (r: (World, nat))
    requires forall k :: 0 <= k < |at| ==> at[k] < |w.rows|
    ensures |r.0.rows| == |w.rows|
  {
    if at == [] then (w, 0)
    else
      var n := |at| - 1;
      var (w1, processed) := RetryRows(env, w, at[..n]);
      var (w2, ok) := RetryRow(env, w1, at[n]);
      (w2, if ok then processed + 1 else processed)
  }

  ghost function RetryOnce(env: Env, w: World, limit: int): (World, nat) {
    RetryRows(env, w, Selected(w.rows, w.clock, limit))
  }

  // ---------- the class ----------

  class IdentityProjectionDispatcher {
    const writer: RelationshipStore
    const dtm: bool
    const dtmFails: nat -> bool
    var rows: seq<Row>
    var dtmCalls: nat
    var clock: nat
    ghost var log: seq<Entry>

    constructor (writer: RelationshipStore, dtm: bool, dtmFails: nat -> bool)
      ensures this.writer == writer && this.dtm == dtm && this.dtmFails == dtmFails
      ensures rows == [] && dtmCalls == 0 && clock == 0 && log == []
    {
      this.writer, this.dtm, this.dtmFails := writer, dtm, dtmFails;
      rows, dtmCalls, clock, log := [], 0, 0, [];
    }

    ghost function State(): World
      reads this, writer
    {
      World(rows, writer.tuples, writer.calls, dtmCalls, clock, log)
    }

    ghost function Environment(): Env {
      Env(writer.fails, dtm, dtmFails)
    }

    method SetStatus(i: nat, status: Status)
      requires i < |rows|
      modifies this`rows
      ensures State() == Mark(old(State()), i, status)
    {
      rows := rows[i := rows[i].(status := status)];
    }

    method RecordFailure(i: nat)
      requires i < |rows|
      modifies this`rows
      ensures State() == MarkFailure(old(State()), i)
    {
      rows := rows[i := rows[i].(status := Failed, nextRunAt := Some(clock + MINUTE))];
      rows := rows[i := rows[i].(retryCount := rows[i].retryCount + 1)];
    }

    method OnApply(i: nat) returns (ok: bool)
      requires i < |rows|
      modifies this, writer
      ensures (State(), ok) == ApplyBranch(Environment(), old(State()), i)
    {
      ghost var row := rows[i];
      var payload := rows[i].payload;
      SetStatus(i, Projecting);
      ghost var plan, steps := ApplyPlan(payload), 0;
      var deleted;
      deleted, ok, steps := ApplyIdentityAuthZProjection(writer, payload);
      log := log + [Entry(i, plan, steps)];
      if ok {
        SetStatus(i, Synced);
      } else {
        RecordFailure(i);
      }
      assert rows == old(rows)[i := BranchRow(row, ok, Synced, clock)];
    }

    method OnCompensate(i: nat) returns (ok: bool)
      requires i < |rows|
      modifies this, writer
      ensures (State(), ok) == CompensateBranch(Environment(), old(State()), i)
    {
      var payload := rows[i].payload;
      ghost var plan, steps := CompensatePlan(payload), 0;
      var deleted;
      deleted, ok, steps := CompensateIdentityAuthZProjection(writer, payload);
      log := log + [Entry(i, plan, steps)];
      if ok {
        SetStatus(i, Archived);
      } else {
        RecordFailure(i);
      }
    }

    method SubmitEvent(i: nat) returns (ok: bool)
      requires i < |rows|
      modifies this, writer
      ensures (State(), ok) == Submit(Environment(), old(State()), i)
    {
      if dtm {
        ok := !dtmFails(dtmCalls);
        dtmCalls := dtmCalls + 1;
        if !ok { return; }
        SetStatus(i, Submitted);
        ok := !dtmFails(dtmCalls);
        dtmCalls := dtmCalls + 1;
      } else {
        ok := OnApply(i);
      }
    }

    method DispatchEvent(payload: Payload) returns (ok: bool)
      modifies this, writer
      ensures (State(), ok) == Dispatch(Environment(), old(State()), payload)
    {
      var q := NormalizeProjectionPayload(payload);
      if Empty(q) { return true; }
      rows := rows + [NewRow(q, clock)];
      ok := SubmitEvent(|rows| - 1);
    }

    method RetryEvent(i: nat) returns (ok: bool)
      requires i < |rows|
      modifies this, writer
      ensures (State(), ok) == RetryRow(Environment(), old(State()), i)
    {
      ok := SubmitEvent(i);
      if !ok {
        RecordFailure(i);
      }
    }

    method Retry(limit: int) returns (processed: nat)
      modifies this, writer
      ensures (State(), processed) == RetryOnce(Environment(), old(State()), limit)
    {
      hide RetryRow;
      ghost var env, w0 := Environment(), State();
      var events := Selected(rows, clock, limit);
      processed := 0;
      ghost var w := w0;
      assert events[..0] == [];
      for k := 0 to |events|
        invariant w == State() && |w.rows| == |w0.rows|
        invariant (w, processed) == RetryRows(env, w0, events[..k])
      {
        assert events[..k + 1][..k] == events[..k];
        var ok := RetryEvent(events[k]);
        if ok {
          processed := processed + 1;
        }
        assert (State(), ok) == RetryRow(env, w, events[k]);
        w := State();
      }
      assert events[..|events|] == events;
    }

    method Sleep(seconds: nat)
      modifies this`clock
      ensures State() == old(State()).(clock := old(clock) + seconds)
    {
      clock := clock + seconds;
    }
  }
}
