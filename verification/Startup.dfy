/** The directory reconcile that runs at every start, over the configured
    organizations. */
module Startup {
  import opened Text
  import opened Relationships
  import opened Projection
  import opened Dispatcher
  import opened Directory
  import opened Drift

  /** What the directory answers for an organization; None on error. */
  type Listing = string -> Option<(seq<Group>, seq<User>)>

  ghost function Wanted(listing: Listing, org: string): seq<Relationship>
    requires listing(Trim(org)).Some?
  {
    var answer := listing(Trim(org)).value;
    Desired(Trim(org), answer.0, answer.1)
  }

  /** One organization: a failed dispatch is left to the retry loop, a failed
      listing is an error. */
  ghost function ReconcileOne(env: Env, w: World, listing: Listing, org: string): (World, bool) {
    if Blank(org) then (w, true)
    else if listing(Trim(org)) == None then (w, false)
    else (Dispatch(env, w, Payload(OP_WRITE, Wanted(listing, org), [])).0, true)
  }

  /** The organizations in turn, up to the first error. */
  ghost function StartupRun(env: Env, w: World, listing: Listing, orgs: seq<string>): (World, bool) {
    if orgs == [] then (w, true)
    else
      var before := StartupRun(env, w, listing, orgs[..|orgs| - 1]);
      if before.1 then ReconcileOne(env, before.0, listing, orgs[|orgs| - 1]) else before
  }

  method ReconcileDirectoryOnStartup(dispatcher: IdentityProjectionDispatcher, listing: Listing, orgs: seq<string>)
      returns (ok: bool)
    modifies dispatcher, dispatcher.writer
    ensures (dispatcher.State(), ok) == StartupRun(dispatcher.Environment(), old(dispatcher.State()), listing, orgs)
  {
    hide ReconcileOne;
    ghost var env, w0 := dispatcher.Environment(), dispatcher.State();
    for i := 0 to |orgs|
      invariant (dispatcher.State(), true) == StartupRun(env, w0, listing, orgs[..i])
    {
      assert orgs[..i + 1][..i] == orgs[..i];
      StaysFailed(env, w0, listing, orgs, i + 1);
      var reconciled := ReconcileOrganization(dispatcher, listing, orgs[i]);
      if !reconciled { return false; }
    }
    assert orgs[..|orgs|] == orgs;
    ok := true;
  }

  /** The body of the loop; the outcome of the dispatch is dropped. */
  method ReconcileOrganization(dispatcher: IdentityProjectionDispatcher, listing: Listing, name: string)
      returns (ok: bool)
    modifies dispatcher, dispatcher.writer
    ensures (dispatcher.State(), ok) == ReconcileOne(dispatcher.Environment(), old(dispatcher.State()), listing, name)
  {
    hide Dispatch, Trim, Projected;
    var org := Trim(name);
    if org == "" { return true; }
    var answer := listing(org);
    if answer == None { return false; }
    var rels := BuildDirectoryProjectionRelationships(org, answer.value.0, answer.value.1);
    var dispatched := dispatcher.DispatchEvent(Payload(OP_WRITE, rels, []));
    ok := true;
  }

  lemma {:induction false} StaysFailed(env: Env, w: World, listing: Listing, orgs: seq<string>, i: nat)
    requires i <= |orgs|
    ensures !StartupRun(env, w, listing, orgs[..i]).1 ==>
        StartupRun(env, w, listing, orgs) == StartupRun(env, w, listing, orgs[..i])
    decreases |orgs|
  {
    hide ReconcileOne;
    if i < |orgs| {
      var n := |orgs| - 1;
      StaysFailed(env, w, listing, orgs[..n], i);
      assert orgs[..n][..i] == orgs[..i];
    } else {
      assert orgs[..i] == orgs;
    }
  }

  /** The event of these tuples is recorded, has failed, and is due in a minute. */
  ghost predicate LeftToRetry(w: World, rels: seq<Relationship>) {
    exists i :: 0 <= i < |w.rows| && w.rows[i].payload == Payload(OP_WRITE, rels, [])
      && w.rows[i].status == Failed && w.rows[i].nextRunAt == Some(w.clock + MINUTE)
  }

  /** The organization's tuples are in the store, or their event awaits a retry. */
  ghost predicate Covered(w: World, rels: seq<Relationship>) {
    Elements(rels) <= w.tuples || LeftToRetry(w, rels)
  }

  /** A later world of the same start: nothing is removed. */
  ghost predicate Grows(w: World, t: World) {
    w.tuples <= t.tuples && w.clock == t.clock && w.rows <= t.rows
  }

  lemma DispatchCovers(env: Env, w: World, rels: seq<Relationship>)
    requires !env.dtm
    requires Normalize(Payload(OP_WRITE, rels, [])) == Payload(OP_WRITE, rels, [])
    ensures var t := Dispatch(env, w, Payload(OP_WRITE, rels, [])).0; Grows(w, t) && Covered(t, rels)
  {
    hide Normalize, Run;
    var q := Payload(OP_WRITE, rels, []);
    var (t, ok) := Dispatch(env, w, q);
    if rels == [] {
      assert Elements(rels) == {};
    } else {
      var i := |w.rows|;
      assert ApplyPlan(q) == Add(rels);
      var o := Run(Add(rels), w.tuples, env.fails, w.calls);
      assert o.tuples == w.tuples || o.tuples == w.tuples + Elements(rels);
      assert w.rows <= t.rows;
      if !ok {
        assert t.rows[i] == FailedRow(NewRow(q, w.clock), w.clock);
        assert LeftToRetry(t, rels);
      }
    }
  }

  lemma GrowsKeepsCovered(w: World, t: World, rels: seq<Relationship>)
    requires Grows(w, t) && Covered(w, rels)
    ensures Covered(t, rels)
  {
    if LeftToRetry(w, rels) {
      var i :| 0 <= i < |w.rows| && w.rows[i].payload == Payload(OP_WRITE, rels, [])
               && w.rows[i].status == Failed && w.rows[i].nextRunAt == Some(w.clock + MINUTE);
      assert t.rows[i] == w.rows[i];
    }
  }

  /** An organization whose tuples are in the store has no drift. */
  lemma CoveredHasNoDrift(s: Store, rels: seq<Relationship>)
    requires Elements(rels) <= s
    ensures Missing(s, rels) == []
  {
    hide Present;
    forall r | r in rels
      ensures Present(s, r)
    {
      assert r in Elements(rels);
      StoredIsPresent(s, r);
    }
    NothingMissing(s, rels);
  }

  /** A covered organization has no drift, or its event awaits a retry. */
  lemma CoveredHealsOrRetries(w: World, rels: seq<Relationship>)
    requires Covered(w, rels)
    ensures Missing(w.tuples, rels) == [] || LeftToRetry(w, rels)
  {
    hide LeftToRetry;
    if Elements(rels) <= w.tuples {
      CoveredHasNoDrift(w.tuples, rels);
    }
  }

  lemma {:induction false} StartupCovers(env: Env, w: World, listing: Listing, orgs: seq<string>)
    requires !env.dtm
    ensures var (t, ok) := StartupRun(env, w, listing, orgs);
      && Grows(w, t)
      && (ok ==> forall org :: org in orgs && !Blank(org) ==>
            (listing(Trim(org)).Some? && Covered(t, Wanted(listing, org))))
    decreases |orgs|
  {
    hide Dispatch, Desired, Trim, Blank, Covered;
    if orgs != [] {
      var n := |orgs| - 1;
      StartupCovers(env, w, listing, orgs[..n]);
      var before := StartupRun(env, w, listing, orgs[..n]).0;
      var (t, ok) := StartupRun(env, w, listing, orgs);
      assert orgs == orgs[..n] + [orgs[n]];
      if ok && !Blank(orgs[n]) {
        WantedIsNormal(listing, orgs[n]);
        DispatchCovers(env, before, Wanted(listing, orgs[n]));
        forall org | org in orgs[..n] && !Blank(org)
          ensures listing(Trim(org)).Some? && Covered(t, Wanted(listing, org))
        {
          GrowsKeepsCovered(before, t, Wanted(listing, org));
        }
      }
    }
  }

  lemma WantedIsNormal(listing: Listing, org: string)
    requires listing(Trim(org)).Some?
    ensures var q := Payload(OP_WRITE, Wanted(listing, org), []); Normalize(q) == q
  {
    hide Desired, Normalize;
    var answer := listing(Trim(org)).value;
    DesiredIsNormal(Trim(org), answer.0, answer.1);
  }

  /** With direct apply a start that could list every organization removes
      nothing, and leaves each organization without drift or with its event
      recorded and due in a minute, whatever store calls failed. */
  lemma StartupHealsOrRetries(env: Env, w: World, listing: Listing, orgs: seq<string>)
    requires !env.dtm
    ensures var (t, ok) := StartupRun(env, w, listing, orgs);
      && Grows(w, t)
      && (ok ==> forall org :: org in orgs && !Blank(org) ==>
            (&& listing(Trim(org)).Some?
             && (Missing(t.tuples, Wanted(listing, org)) == [] || LeftToRetry(t, Wanted(listing, org)))))
  {
    hide StartupRun, Desired, Trim, Blank, Covered, LeftToRetry, Grows;
    StartupCovers(env, w, listing, orgs);
    var (t, ok) := StartupRun(env, w, listing, orgs);
    if ok {
      forall org | org in orgs && !Blank(org)
        ensures listing(Trim(org)).Some?
        ensures Missing(t.tuples, Wanted(listing, org)) == [] || LeftToRetry(t, Wanted(listing, org))
      {
        CoveredHealsOrRetries(t, Wanted(listing, org));
      }
    }
  }

  /** Everything before organization i was done, and it could not be listed. */
  ghost predicate StopsAt(env: Env, w: World, listing: Listing, orgs: seq<string>, t: World, i: nat) {
    && i < |orgs| && Trim(orgs[i]) != "" && listing(Trim(orgs[i])) == None
    && StartupRun(env, w, listing, orgs[..i]) == (t, true)
  }

  /** A start succeeds exactly when every organization it names could be listed,
      however many dispatches failed; otherwise everything up to the first one that
      could not be listed was done. */
  lemma {:induction false} StartupSucceedsIff(env: Env, w: World, listing: Listing, orgs: seq<string>)
    ensures var (t, ok) := StartupRun(env, w, listing, orgs);
      && (ok <==> forall i :: 0 <= i < |orgs| && Trim(orgs[i]) != "" ==> listing(Trim(orgs[i])).Some?)
      && (!ok ==> exists i: nat :: StopsAt(env, w, listing, orgs, t, i))
    decreases |orgs|
  {
    hide Dispatch, Wanted, Trim;
    if orgs != [] {
      var n := |orgs| - 1;
      StartupSucceedsIff(env, w, listing, orgs[..n]);
      var (t, ok) := StartupRun(env, w, listing, orgs[..n]);
      if !ok {
        var i: nat :| StopsAt(env, w, listing, orgs[..n], t, i);
        assert orgs[..n][..i] == orgs[..i];
        assert StopsAt(env, w, listing, orgs, t, i);
      } else if !StartupRun(env, w, listing, orgs).1 {
        assert StopsAt(env, w, listing, orgs, t, n);
      }
    }
  }
}
