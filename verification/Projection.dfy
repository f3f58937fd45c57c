/** One projection event: a payload that writes tuples or deletes by filters,
    how it is normalized, what it does to the tuple store when every call
    succeeds, and what it leaves behind when the store fails part way. */
module Projection {
  import opened Text
  import opened Relationships
  import opened Sequences

  datatype Payload = Payload(operation: string, relationships: seq<Relationship>, filters: seq<Filter>)

  const OP_WRITE := "write"
  const OP_DELETE := "delete"

  // ---------- normalizeProjectionPayload ----------

  function Cleaned(r: Relationship): Relationship {
    r.(resource := r.resource.(id := Trim(r.resource.id)), subject := r.subject.(id := Trim(r.subject.id)))
  }

  predicate NoField(f: Filter) {
    f == Filter("", "", "", "", "", "")
  }

  function CleanFilter(f: Filter): Filter {
    f.(resourceID := Trim(f.resourceID), subjectID := Trim(f.subjectID))
  }

  function CleanOperation(op: string): string {
    if Blank(op) then OP_WRITE else Trim(op)
  }

  ghost function CleanRelationships(rels: seq<Relationship>): seq<Relationship> {
    Collect(rels, Zero, Cleaned)
  }

  ghost function CleanFilters(fs: seq<Filter>): seq<Filter> {
    Collect(fs, NoField, CleanFilter)
  }

  ghost function Normalize(p: Payload): Payload {
    Payload(CleanOperation(p.operation), Dedupe(CleanRelationships(p.relationships)), CleanFilters(p.filters))
  }

  method NormalizeProjectionPayload(p: Payload) returns (q: Payload)
    ensures q == Normalize(p)
  {
    var operation := Trim(p.operation);
    if operation == "" {
      operation := OP_WRITE;
    }
    var rels := [];
    for i := 0 to |p.relationships|
      invariant rels == CleanRelationships(p.relationships[..i])
    {
      var rel := p.relationships[i];
      CollectStep(p.relationships, i, Zero, Cleaned);
      if Zero(rel) { continue; }
      rels := rels + [Cleaned(rel)];
    }
    assert p.relationships[..|p.relationships|] == p.relationships;
    var deduped := DedupeRelationships(rels);
    var filters := [];
    for i := 0 to |p.filters|
      invariant filters == CleanFilters(p.filters[..i])
    {
      var filter := p.filters[i];
      CollectStep(p.filters, i, NoField, CleanFilter);
      if NoField(filter) { continue; }
      filters := filters + [CleanFilter(filter)];
    }
    assert p.filters[..|p.filters|] == p.filters;
    q := Payload(operation, deduped, filters);
  }

  predicate Empty(p: Payload) {
    p.relationships == [] && p.filters == []
  }

  lemma CleanedIsClean(r: Relationship)
    requires !Zero(r)
    ensures !Zero(Cleaned(r)) && Trimmed(Cleaned(r).resource.id) && Trimmed(Cleaned(r).subject.id)
  {
    TrimNotBlank(r.resource.id);
    TrimNotBlank(r.subject.id);
  }

  predicate Tidy(r: Relationship) {
    !Zero(r) && Trimmed(r.resource.id) && Trimmed(r.subject.id)
  }

  lemma NormalizedAreTidy(p: Payload)
    ensures forall r :: r in Normalize(p).relationships ==> Tidy(r)
  {
    DedupeExact(CleanRelationships(p.relationships));
    forall r | r in Normalize(p).relationships
      ensures Tidy(r)
    {
      assert r in Elements(Normalize(p).relationships);
      CollectMember(p.relationships, r, Zero, Cleaned);
      var x :| x in p.relationships && !Zero(x) && Cleaned(x) == r;
      CleanedIsClean(x);
    }
  }

  function CleanedSet(rels: seq<Relationship>): Store {
    set r | r in rels && !Zero(r) :: Cleaned(r)
  }

  lemma CleanedIsSeparable(r: Relationship)
    requires Separable(r)
    ensures Separable(Cleaned(r))
  {
  }

  /** Normalization keeps every non-zero tuple, with its ids trimmed, as long as
      no part holds a separator. */
  lemma NormalizeKeeps(op: string, rels: seq<Relationship>, fs: seq<Filter>)
    requires forall r :: r in rels ==> Zero(r) || Separable(r)
    ensures Elements(Normalize(Payload(op, rels, fs)).relationships) == CleanedSet(rels)
  {
    var clean := CleanRelationships(rels);
    forall r
      ensures r in clean <==> r in CleanedSet(rels)
      ensures r in clean ==> Separable(r) && !Zero(r)
    {
      CollectMember(rels, r, Zero, Cleaned);
      if r in clean {
        var x :| x in rels && !Zero(x) && Cleaned(x) == r;
        CleanedIsClean(x);
        CleanedIsSeparable(x);
      }
    }
    DedupeSeparable(clean);
    assert NonZero(clean) == CleanedSet(rels);
  }

  /** Canonical tuples go through normalization unchanged, as a set. */
  lemma NormalizeKeepsCanonical(op: string, rels: seq<Relationship>, fs: seq<Filter>)
    requires forall r :: r in rels ==> Canonical(r)
    ensures Elements(Normalize(Payload(op, rels, fs)).relationships) == Elements(rels)
  {
    hide Canonical, Separable, Zero, Cleaned, Normalize;
    forall r | r in rels
      ensures !Zero(r) && Separable(r) && Cleaned(r) == r
    {
      CanonicalIsClean(r);
    }
    NormalizeKeeps(op, rels, fs);
    assert CleanedSet(rels) == Elements(rels);
  }

  lemma CanonicalIsClean(r: Relationship)
    requires Canonical(r)
    ensures !Zero(r) && Separable(r) && Cleaned(r) == r
  {
  }

  /** A filter that names nothing but a blank id. */
  predicate BlankIdOnly(f: Filter) {
    !NoField(f) && NoField(CleanFilter(f))
  }

  lemma NormalizedRelationshipsStable(p: Payload)
    ensures Dedupe(CleanRelationships(Normalize(p).relationships)) == Normalize(p).relationships
  {
    NormalizedAreTidy(p);
    CollectStable(Normalize(p).relationships, Zero, Cleaned);
    DedupeIdempotent(CleanRelationships(p.relationships));
  }

  lemma CleanFiltersTwice(fs: seq<Filter>)
    ensures CleanFilters(CleanFilters(fs)) == CleanFilters(fs) <==> forall f :: f in fs ==> !BlankIdOnly(f)
  {
    CollectTwice(fs, NoField, CleanFilter);
  }

  /** Normalizing again changes nothing, unless a filter named only a blank id:
      the first pass turns it into the filter with no field, which selects
      every tuple, and the second pass drops it. */
  lemma NormalizeIdempotent(p: Payload)
    ensures Normalize(Normalize(p)) == Normalize(p) <==> forall f :: f in p.filters ==> !BlankIdOnly(f)
  {
    NormalizedRelationshipsStable(p);
    CleanFiltersTwice(p.filters);
    CleanOperationTwice(p.operation);
    var q := Normalize(p);
    var again := Normalize(q);
    assert again.operation == q.operation && again.relationships == q.relationships;
    assert again.filters == CleanFilters(CleanFilters(p.filters)) && q.filters == CleanFilters(p.filters);
  }

  lemma CleanOperationTwice(op: string)
    ensures CleanOperation(CleanOperation(op)) == CleanOperation(op)
  {
    if Blank(op) {
      assert !IsSpace(OP_WRITE[0]) && !IsSpace(OP_WRITE[4]);
      assert Trimmed(OP_WRITE);
    }
  }

  lemma BlankIdFilterSelectsAll(f: Filter, r: Relationship)
    requires BlankIdOnly(f)
    ensures Normalize(Payload(OP_DELETE, [], [f])).filters == [CleanFilter(f)]
    ensures Matches(CleanFilter(f), r)
    ensures Normalize(Normalize(Payload(OP_DELETE, [], [f]))).filters == []
  {
    assert [f][..0] == [];
    assert CleanFilters([f]) == CleanFilters([]) + [CleanFilter(f)];
    var g := CleanFilter(f);
    assert [g][..0] == [];
    assert CleanFilters([g]) == CleanFilters([]) + [];
  }

  /** A concrete filter of that kind: one blank as its resource id. */
  lemma BlankIdWitness()
    ensures var f := Filter("", " ", "", "", "", "");
      var p := Payload(OP_DELETE, [], [f]);
      && Normalize(p).filters == [Filter("", "", "", "", "", "")]
      && Normalize(Normalize(p)).filters == [] && Normalize(Normalize(p)) != Normalize(p)
  {
    var f := Filter("", " ", "", "", "", "");
    assert Blank(" ") && Trim(" ") == "";
    BlankIdFilterSelectsAll(f, Relationship(ObjectRef("", ""), "", SubjectRef("", "", "")));
  }

  // ---------- what an event does to the store ----------

  /** The store calls of one application: one write, or one delete per filter. */
  datatype Plan = Add(rels: seq<Relationship>) | Remove(filters: seq<Filter>) | Unsupported

  function Steps(plan: Plan): nat {
    match plan
    case Add(_) => 1
    case Remove(filters) => |filters|
    case Unsupported => 0
  }

  /** The store after the first `steps` calls of a plan. */
  function After(s: Store, plan: Plan, steps: nat): Store
    requires steps <= Steps(plan)
  {
    match plan
    case Add(rels) => if steps == 0 then s else s + Elements(rels)
    case Remove(filters) => Remaining(s, filters[..steps])
    case Unsupported => s
  }

  function Full(s: Store, plan: Plan): Store {
    After(s, plan, Steps(plan))
  }

  lemma FullRemove(s: Store, filters: seq<Filter>)
    ensures Full(s, Remove(filters)) == Remaining(s, filters)
  {
    assert filters[..|filters|] == filters;
  }

  function PlanOf(q: Payload): Plan {
    if q.operation == OP_WRITE then Add(q.relationships)
    else if q.operation == OP_DELETE then Remove(q.filters)
    else Unsupported
  }

  ghost function ApplyPlan(p: Payload): Plan {
    PlanOf(Normalize(p))
  }

  function Namings(rels: seq<Relationship>): (fs: seq<Filter>)
    ensures |fs| == |rels| && forall i :: 0 <= i < |rels| ==> fs[i] == Naming(rels[i])
  {
    seq(|rels|, i requires 0 <= i < |rels| => Naming(rels[i]))
  }

  function UndoPlanOf(q: Payload): Plan {
    if q.operation == OP_WRITE then Remove(Namings(q.relationships))
    else if q.operation == OP_DELETE then Add(q.relationships)
    else Unsupported
  }

  ghost function CompensatePlan(p: Payload): Plan {
    UndoPlanOf(Normalize(p))
  }

  /** How many of the next n calls succeed before the first failure. */
  function Reach(fails: nat -> bool, calls: nat, n: nat): (k: nat)
    ensures k <= n
    ensures forall c :: calls <= c < calls + k ==> !fails(c)
    ensures k < n ==> fails(calls + k)
    decreases n
  {
    if n == 0 || fails(calls) then 0 else 1 + Reach(fails, calls + 1, n - 1)
  }

  datatype Outcome = Outcome(tuples: Store, calls: nat, steps: nat, ok: bool)

  function Run(plan: Plan, s: Store, fails: nat -> bool, calls: nat): (o: Outcome)
    ensures o.steps <= Steps(plan) && o.tuples == After(s, plan, o.steps)
    ensures o.ok <==> plan != Unsupported && o.steps == Steps(plan)
    ensures o.ok ==> o.tuples == Full(s, plan)
  {
    var n := Steps(plan);
    var k := Reach(fails, calls, n);
    Outcome(After(s, plan, k), calls + (if k < n then k + 1 else n), k, plan != Unsupported && k == n)
  }

  /** The tuple store. Call number i fails, without any effect, when the
      environment says so. */
  class RelationshipStore {
    var tuples: Store
    var calls: nat
    const fails: nat -> bool

    constructor (fails: nat -> bool)
      ensures tuples == {} && calls == 0 && this.fails == fails
    {
      this.fails := fails;
      tuples, calls := {}, 0;
    }

    method WriteRelationships(rels: seq<Relationship>) returns (ok: bool)
      modifies this
      ensures calls == old(calls) + 1 && ok == !fails(old(calls))
      ensures tuples == if ok then old(tuples) + Elements(rels) else old(tuples)
    {
      ok := !fails(calls);
      calls := calls + 1;
      if ok {
        tuples := tuples + set r | r in rels;
      }
    }

    method DeleteRelationships(filter: Filter) returns (deleted: nat, ok: bool)
      modifies this
      ensures calls == old(calls) + 1 && ok == !fails(old(calls))
      ensures tuples == if ok then Remaining(old(tuples), [filter]) else old(tuples)
      ensures deleted == |old(tuples)| - |tuples|
    {
      ok := !fails(calls);
      calls := calls + 1;
      deleted := 0;
      if ok {
        var selected := set r | r in tuples && Matches(filter, r);
        deleted := |selected|;
        assert tuples - selected == Remaining(tuples, [filter]);
        CardDifference(tuples, selected);
        tuples := tuples - selected;
      }
    }

    method ReadRelationships(filter: Filter) returns (rels: seq<Relationship>, ok: bool)
      modifies this`calls
      ensures calls == old(calls) + 1 && ok == !fails(old(calls))
      ensures Elements(rels) == if ok then set r | r in tuples && Matches(filter, r) else {}
    {
      ok := !fails(calls);
      calls := calls + 1;
      rels := [];
      if ok {
        var rest := set r | r in tuples && Matches(filter, r);
        while rest != {}
          invariant rest + Elements(rels) == set r | r in tuples && Matches(filter, r)
          decreases rest
        {
          var r :| r in rest;
          rels := rels + [r];
          rest := rest - {r};
        }
      }
    }
  }

  lemma RemainingStep(s: Store, fs: seq<Filter>, i: nat)
    requires i < |fs|
    ensures Remaining(Remaining(s, fs[..i]), [fs[i]]) == Remaining(s, fs[..i + 1])
  {
    forall r
      ensures Hit(fs[..i + 1], r) <==> Hit(fs[..i], r) || Hit([fs[i]], r)
    {
      assert fs[..i + 1] == fs[..i] + [fs[i]];
    }
  }

  lemma RemainingNone(s: Store)
    ensures Remaining(s, []) == s
  {
  }

  lemma ReachIs(fails: nat -> bool, calls: nat, n: nat, k: nat)
    requires k <= n
    requires forall c :: calls <= c < calls + k ==> !fails(c)
    requires k < n ==> fails(calls + k)
    ensures Reach(fails, calls, n) == k
    decreases n
  {
    if n > 0 && k > 0 {
      ReachIs(fails, calls + 1, n - 1, k - 1);
    }
  }

  /** Deletes filter by filter and stops at the first failing call. */
  method DeleteEach(writer: RelationshipStore, filters: seq<Filter>)
    returns (deleted: nat, ok: bool, ghost steps: nat)
    modifies writer
    ensures steps == Reach(writer.fails, old(writer.calls), |filters|)
    ensures ok == (steps == |filters|)
    ensures writer.calls == old(writer.calls) + steps + (if ok then 0 else 1)
    ensures writer.tuples == Remaining(old(writer.tuples), filters[..steps])
    ensures deleted == |old(writer.tuples)| - |writer.tuples|
  {
    ghost var s0, c0 := writer.tuples, writer.calls;
    deleted, ok, steps := 0, false, 0;
    RemainingNone(s0);
    for i := 0 to |filters|
      invariant writer.calls == c0 + i && steps == i
      invariant forall c :: c0 <= c < c0 + i ==> !writer.fails(c)
      invariant writer.tuples == Remaining(s0, filters[..i])
      invariant deleted == |s0| - |writer.tuples|
    {
      var part, partOk := writer.DeleteRelationships(filters[i]);
      deleted := deleted + part;
      if !partOk {
        ReachIs(writer.fails, c0, |filters|, i);
        return;
      }
      RemainingStep(s0, filters, i);
      steps := steps + 1;
    }
    ReachIs(writer.fails, c0, |filters|, |filters|);
    ok := true;
  }

  method Execute(writer: RelationshipStore, plan: Plan) returns (deleted: nat, ok: bool, ghost steps: nat)
    modifies writer
    ensures Outcome(writer.tuples, writer.calls, steps, ok)
         == Run(plan, old(writer.tuples), writer.fails, old(writer.calls))
    ensures plan.Remove? ==> deleted == |old(writer.tuples)| - |writer.tuples|
  {
    deleted, ok, steps := 0, false, 0;
    match plan
    case Add(rels) =>
      ok := writer.WriteRelationships(rels);
      steps := if ok then 1 else 0;
      ReachIs(writer.fails, old(writer.calls), 1, steps);
    case Remove(filters) =>
      deleted, ok, steps := DeleteEach(writer, filters);
    case Unsupported =>
  }

  method ApplyIdentityAuthZProjection(writer: RelationshipStore, payload: Payload)
    returns (deleted: nat, ok: bool, ghost steps: nat)
    modifies writer
    ensures Outcome(writer.tuples, writer.calls, steps, ok)
         == Run(ApplyPlan(payload), old(writer.tuples), writer.fails, old(writer.calls))
    ensures ApplyPlan(payload).Remove? ==> deleted == |old(writer.tuples)| - |writer.tuples|
  {
    var q := NormalizeProjectionPayload(payload);
    var plan := PlanOf(q);
    deleted, ok, steps := Execute(writer, plan);
  }

  method CompensateIdentityAuthZProjection(writer: RelationshipStore, payload: Payload)
    returns (deleted: nat, ok: bool, ghost steps: nat)
    modifies writer
    ensures Outcome(writer.tuples, writer.calls, steps, ok)
         == Run(CompensatePlan(payload), old(writer.tuples), writer.fails, old(writer.calls))
    ensures CompensatePlan(payload).Remove? ==> deleted == |old(writer.tuples)| - |writer.tuples|
  {
    var q := NormalizeProjectionPayload(payload);
    var plan := UndoPlanOf(q);
    deleted, ok, steps := Execute(writer, plan);
  }

  /** What an operation name asks for, and what its compensation does. */
  lemma OperationMeans(p: Payload)
    ensures ApplyPlan(p).Add? <==> Blank(p.operation) || Trim(p.operation) == "write"
    ensures ApplyPlan(p).Remove? <==> Trim(p.operation) == "delete"
    ensures ApplyPlan(p) == Unsupported <==> !Blank(p.operation) && Trim(p.operation) !in {"write", "delete"}
    ensures CompensatePlan(p).Remove? <==> ApplyPlan(p).Add?
    ensures CompensatePlan(p).Add? <==> ApplyPlan(p).Remove?
  {
    hide Trim, CleanRelationships, CleanFilters, Dedupe;
    assert |"write"| != |"delete"|;
  }
}
