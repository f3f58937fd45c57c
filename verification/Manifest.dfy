/** The permission manifest: its validation against a schema, role resolution by
    iteration over a map, and the tuples bootstrapped for administrators. */
module Manifest {
  import opened Text
  import opened StringOrder
  import opened SchemaParse

  datatype ResourceType = ResourceType(typ: string, spicedbType: string,
                                       relations: seq<string>, permissions: seq<string>)
  datatype RoleTemplate = RoleTemplate(resourceType: string, relation: string)
  datatype BootstrapRole = BootstrapRole(aliases: seq<string>, scope: string, relation: string)
  datatype AdminResource = AdminResource(typ: string, id: string)
  datatype BootstrapPolicy = BootstrapPolicy(defaultRole: string, platformID: string,
                                             roles: map<string, BootstrapRole>, platformResources: seq<AdminResource>)
  datatype PermissionManifest = PermissionManifest(resourceTypes: seq<ResourceType>, roleTemplates: seq<RoleTemplate>,
                                                   bootstrap: BootstrapPolicy)

  // ---------- ResolveRole ----------

  /** An order in which the roles map may be iterated. */
  ghost predicate IterationOrder(p: BootstrapPolicy, order: seq<string>) {
    NoDuplicates(order) && forall name :: name in order <==> name in p.roles
  }

  function Wanted(p: BootstrapPolicy, role: string): (r: string)
    ensures Trimmed(r)
  {
    if Blank(role) then Trim(p.defaultRole) else Trim(role)
  }

  predicate HasAlias(role: BootstrapRole, x: string) {
    exists i :: 0 <= i < |role.aliases| && Trim(role.aliases[i]) == x
  }

  function FirstWithAlias(p: BootstrapPolicy, order: seq<string>, x: string): (r: Option<string>)
    requires forall name :: name in order ==> name in p.roles
    ensures r.Some? ==> r.value in order && HasAlias(p.roles[r.value], x)
    ensures r == None ==> forall name :: name in order ==> !HasAlias(p.roles[name], x)
  {
    if order == [] then None
    else if HasAlias(p.roles[order[0]], x) then Some(order[0])
    else FirstWithAlias(p, order[1..], x)
  }

  /** The canonical name a role string resolves to, when the map is iterated in
      this order. */
  function ResolveRole(p: BootstrapPolicy, order: seq<string>, role: string): (r: Option<string>)
    requires forall name :: name in order ==> name in p.roles
    ensures r.Some? ==> r.value in p.roles
  {
    var x := Wanted(p, role);
    if x in p.roles then Some(x) else FirstWithAlias(p, order, x)
  }

  ghost predicate OrderIndependent(p: BootstrapPolicy) {
    forall role, o1, o2 :: IterationOrder(p, o1) && IterationOrder(p, o2) ==>
        ResolveRole(p, o1, role) == ResolveRole(p, o2, role)
  }

  /** Two different roles share an alias that is no role's name and that some
      role string can ask for. */
  ghost predicate Ambiguous(p: BootstrapPolicy, a: string, b: string, x: string) {
    && a in p.roles && b in p.roles && a != b && x !in p.roles
    && HasAlias(p.roles[a], x) && HasAlias(p.roles[b], x)
    && (x != "" || Blank(p.defaultRole))
  }

  lemma {:induction false} OrderOf(names: set<string>) returns (order: seq<string>)
    ensures NoDuplicates(order) && forall name :: name in order <==> name in names
  {
    if names == {} {
      order := [];
    } else {
      var x :| x in names;
      order := OrderOf(names - {x});
      order := [x] + order;
    }
  }

  lemma OrderStarting(p: BootstrapPolicy, a: string) returns (order: seq<string>)
    requires a in p.roles
    ensures IterationOrder(p, order) && order != [] && order[0] == a
  {
    order := OrderOf(p.roles.Keys - {a});
    order := [a] + order;
  }

  /** Resolution does not depend on the iteration order exactly when no alias is
      ambiguous. */
  lemma OrderIndependentIff(p: BootstrapPolicy)
    ensures OrderIndependent(p) <==> forall a, b, x :: !Ambiguous(p, a, b, x)
  {
    hide HasAlias, Trim;
    if a, b, x :| Ambiguous(p, a, b, x) {
      var o1 := OrderStarting(p, a);
      var o2 := OrderStarting(p, b);
      AliasTrimmed(p.roles[a], x);
      assert Wanted(p, x) == x;
      assert ResolveRole(p, o1, x) == Some(a) && ResolveRole(p, o2, x) == Some(b);
      assert !OrderIndependent(p);
    } else {
      forall role, o1, o2 | IterationOrder(p, o1) && IterationOrder(p, o2)
        ensures ResolveRole(p, o1, role) == ResolveRole(p, o2, role)
      {
        UnambiguousAgree(p, role, o1, o2);
      }
    }
  }

  lemma AliasTrimmed(role: BootstrapRole, x: string)
    requires HasAlias(role, x)
    ensures Trimmed(x)
  {
  }

  lemma UnambiguousAgree(p: BootstrapPolicy, role: string, o1: seq<string>, o2: seq<string>)
    requires forall a, b, x :: !Ambiguous(p, a, b, x)
    requires IterationOrder(p, o1) && IterationOrder(p, o2)
    ensures ResolveRole(p, o1, role) == ResolveRole(p, o2, role)
  {
    hide HasAlias, Trim;
    var x := Wanted(p, role);
    if x !in p.roles {
      var r1, r2 := FirstWithAlias(p, o1, x), FirstWithAlias(p, o2, x);
      if r1.Some? && r2.Some? {
        assert !Ambiguous(p, r1.value, r2.value, x);
      }
    }
  }

  // ---------- validation ----------

  function TrimAll(values: seq<string>): (r: set<string>) {
    set v | v in values :: Trim(v)
  }

  predicate ExactSet(values: seq<string>, schemaValues: map<string, string>) {
    (forall v :: v in values ==> !Blank(v)) && TrimAll(values) == schemaValues.Keys
  }

  method ValidateExactSet(values: seq<string>, schemaValues: map<string, string>) returns (ok: bool)
    ensures ok == ExactSet(values, schemaValues)
  {
    hide Trim;
    var manifestSet: set<string> := {};
    for i := 0 to |values|
      invariant forall v :: v in values[..i] ==> !Blank(v)
      invariant manifestSet == TrimAll(values[..i])
    {
      var value := Trim(values[i]);
      assert values[i] in values;
      assert values[..i + 1] == values[..i] + [values[i]];
      if value == "" { return false; }
      manifestSet := manifestSet + {value};
    }
    assert values[..|values|] == values;
    var missing := set v | v in schemaValues.Keys && v !in manifestSet;
    var extra := set v | v in manifestSet && v !in schemaValues.Keys;
    ok := missing == {} && extra == {};
    assert ok <==> manifestSet == schemaValues.Keys by {
      assert forall v :: v in schemaValues.Keys && v !in manifestSet <==> v in missing;
      assert forall v :: v in manifestSet && v !in schemaValues.Keys <==> v in extra;
    }
  }

  /** The k-th name of a role: its own, then its aliases, trimmed. */
  function Candidate(roles: map<string, BootstrapRole>, name: string, k: nat): string
    requires name in roles && k <= |roles[name].aliases|
  {
    Trim(if k == 0 then name else roles[name].aliases[k - 1])
  }

  predicate IsCandidate(roles: map<string, BootstrapRole>, name: string, k: int) {
    name in roles && 0 <= k <= |roles[name].aliases|
  }

  predicate Clash(roles: map<string, BootstrapRole>, n: string, k: int, m: string, l: int) {
    IsCandidate(roles, n, k) && IsCandidate(roles, m, l) && Candidate(roles, n, k) == Candidate(roles, m, l)
  }

  /** No candidate is empty, and each belongs to one role and one position. */
  ghost predicate DistinctCandidates(roles: map<string, BootstrapRole>) {
    && (forall n, k :: IsCandidate(roles, n, k) ==> Candidate(roles, n, k) != "")
    && (forall n, k, m, l :: Clash(roles, n, k, m, l) ==> n == m && k == l)
  }

  predicate IsScope(scope: string) {
    scope == "platform" || scope == "zone"
  }

  predicate ValidRole(role: BootstrapRole, schema: Schema) {
    var scope, relation := Trim(role.scope), Trim(role.relation);
    IsScope(scope) && relation != "" && scope in schema && relation in schema[scope].relations
  }

  predicate ValidResource(resource: AdminResource, schema: Schema) {
    var typ := Trim(resource.typ);
    typ in schema && !Blank(resource.id) && "platform" in schema[typ].relations
  }

  ghost predicate Resolves(p: BootstrapPolicy, role: string) {
    var x := Wanted(p, role);
    x in p.roles || exists name :: name in p.roles && HasAlias(p.roles[name], x)
  }

  ghost predicate ValidBootstrap(p: BootstrapPolicy, schema: Schema) {
    && !Blank(p.platformID)
    && "platform" in schema && "zone" in schema
    && DistinctCandidates(p.roles)
    && (forall name :: name in p.roles ==> ValidRole(p.roles[name], schema))
    && Resolves(p, p.defaultRole)
    && (forall r :: r in p.platformResources ==> ValidResource(r, schema))
  }

  /** Position k of role n has been seen: all of the roles done, and the current
      role's first j positions. */
  ghost predicate Seen(roles: map<string, BootstrapRole>, done: set<string>, name: string, j: int, n: string, k: int) {
    IsCandidate(roles, n, k) && (n in done || (n == name && k < j))
  }

  ghost predicate DistinctSoFar(roles: map<string, BootstrapRole>, done: set<string>, name: string, j: int,
      seen: set<string>)
  {
    && (forall n, k :: Seen(roles, done, name, j, n, k) ==>
        Candidate(roles, n, k) != "" && Candidate(roles, n, k) in seen)
    && (forall n, k, m, l ::
          (Seen(roles, done, name, j, n, k) && Seen(roles, done, name, j, m, l) && Clash(roles, n, k, m, l)) ==>
          n == m && k == l)
    && (forall x :: x in seen ==> exists n, k :: Seen(roles, done, name, j, n, k) && Candidate(roles, n, k) == x)
  }

  lemma AddCandidate(roles: map<string, BootstrapRole>, done: set<string>, name: string, j: nat, seen: set<string>)
    requires name in roles && name !in done && IsCandidate(roles, name, j) && DistinctSoFar(roles, done, name, j, seen)
    ensures var x := Candidate(roles, name, j);
      if x == "" || x in seen then !DistinctCandidates(roles) else DistinctSoFar(roles, done, name, j + 1, seen + {x})
  {
    hide Candidate;
    var x := Candidate(roles, name, j);
    if x == "" {
    } else if x in seen {
      var n, k :| Seen(roles, done, name, j, n, k) && Candidate(roles, n, k) == x;
      assert Clash(roles, n, k, name, j);
    } else {
      forall n, k
        ensures Seen(roles, done, name, j + 1, n, k) <==> Seen(roles, done, name, j, n, k) || (n == name && k == j)
      {
      }
      forall y | y in seen + {x}
        ensures exists n, k :: Seen(roles, done, name, j + 1, n, k) && Candidate(roles, n, k) == y
      {
        if y == x {
          assert Seen(roles, done, name, j + 1, name, j);
        } else {
          var n, k :| Seen(roles, done, name, j, n, k) && Candidate(roles, n, k) == y;
          assert Seen(roles, done, name, j + 1, n, k);
        }
      }
    }
  }

  lemma NextRole(roles: map<string, BootstrapRole>, done: set<string>, name: string, next: string, seen: set<string>)
    requires name in roles && DistinctSoFar(roles, done, name, |roles[name].aliases| + 1, seen)
    ensures DistinctSoFar(roles, done + {name}, next, 0, seen)
  {
    hide Candidate, Clash;
    forall n, k
      ensures Seen(roles, done + {name}, next, 0, n, k) <==> Seen(roles, done, name, |roles[name].aliases| + 1, n, k)
    {
    }
  }

  lemma AllSeen(roles: map<string, BootstrapRole>, name: string, seen: set<string>)
    requires DistinctSoFar(roles, roles.Keys, name, 0, seen)
    ensures DistinctCandidates(roles)
  {
    hide Candidate;
    assert forall n, k :: IsCandidate(roles, n, k) ==> Seen(roles, roles.Keys, name, 0, n, k);
  }

  /** The names and aliases of one role; false on an empty or repeated one. */
  method CheckCandidates(roles: map<string, BootstrapRole>, name: string, seen0: set<string>, ghost done: set<string>)
    returns (ok: bool, seen: set<string>)
    requires name in roles && name !in done && DistinctSoFar(roles, done, name, 0, seen0)
    ensures ok ==> DistinctSoFar(roles, done, name, |roles[name].aliases| + 1, seen)
    ensures !ok ==> !DistinctCandidates(roles)
  {
    hide DistinctSoFar, DistinctCandidates;
    seen := seen0;
    for j := 0 to |roles[name].aliases| + 1
      invariant DistinctSoFar(roles, done, name, j, seen)
    {
      var candidate := Candidate(roles, name, j);
      AddCandidate(roles, done, name, j, seen);
      if candidate == "" || candidate in seen { return false, seen; }
      seen := seen + {candidate};
    }
    ok := true;
  }

  method CheckRoles(roles: map<string, BootstrapRole>, schema: Schema) returns (ok: bool)
    requires "platform" in schema && "zone" in schema
    ensures ok <==> DistinctCandidates(roles) && forall name :: name in roles ==> ValidRole(roles[name], schema)
  {
    hide DistinctSoFar, DistinctCandidates, Trim;
    var rest := roles.Keys;
    var seen: set<string> := {};
    NothingSeen(roles);
    while rest != {}
      invariant rest <= roles.Keys
      invariant forall name :: DistinctSoFar(roles, roles.Keys - rest, name, 0, seen)
      invariant forall name :: name in roles && name !in rest ==> ValidRole(roles[name], schema)
      decreases rest
    {
      var name :| name in rest;
      ghost var done := roles.Keys - rest;
      var distinct;
      distinct, seen := CheckCandidates(roles, name, seen, done);
      if !distinct { return false; }
      var role := roles[name];
      var scope, relation := Trim(role.scope), Trim(role.relation);
      if scope != "platform" && scope != "zone" { return false; }
      if relation == "" { return false; }
      if relation !in schema[scope].relations { return false; }
      forall next
        ensures DistinctSoFar(roles, done + {name}, next, 0, seen)
      {
        NextRole(roles, done, name, next, seen);
      }
      rest := rest - {name};
      assert roles.Keys - rest == done + {name};
    }
    AllSeen(roles, "", seen) by {
      assert roles.Keys - {} == roles.Keys;
    }
    ok := true;
  }

  lemma NothingSeen(roles: map<string, BootstrapRole>)
    ensures forall name :: DistinctSoFar(roles, {}, name, 0, {})
    ensures roles.Keys - roles.Keys == {}
  {
  }

  method DefaultResolves(p: BootstrapPolicy) returns (ok: bool)
    ensures ok <==> Resolves(p, p.defaultRole)
  {
    var x := Wanted(p, p.defaultRole);
    ok := x in p.roles || exists name :: name in p.roles && HasAlias(p.roles[name], x);
  }

  method ValidateBootstrap(p: BootstrapPolicy, schema: Schema) returns (ok: bool)
    ensures ok <==> ValidBootstrap(p, schema)
  {
    hide DistinctCandidates, Resolves, ValidRole, Trim;
    if Trim(p.platformID) == "" { return false; }
    if "platform" !in schema || "zone" !in schema { return false; }
    var roles := CheckRoles(p.roles, schema);
    if !roles { return false; }
    var resolved := DefaultResolves(p);
    if !resolved { return false; }
    for i := 0 to |p.platformResources|
      invariant forall r :: r in p.platformResources[..i] ==> ValidResource(r, schema)
    {
      var resource := p.platformResources[i];
      assert resource in p.platformResources;
      assert p.platformResources[..i + 1] == p.platformResources[..i] + [resource];
      var typ := Trim(resource.typ);
      if typ !in schema { return false; }
      if Trim(resource.id) == "" { return false; }
      if "platform" !in schema[typ].relations { return false; }
    }
    assert p.platformResources[..|p.platformResources|] == p.platformResources;
    ok := true;
  }

  // ---------- the whole manifest ----------

  predicate ValidType(t: ResourceType, schema: Schema) {
    && !Blank(t.typ)
    && Trim(t.spicedbType) in schema
    && ExactSet(t.relations, schema[Trim(t.spicedbType)].relations)
    && ExactSet(t.permissions, schema[Trim(t.spicedbType)].permissions)
  }

  ghost predicate DistinctTypes(ts: seq<ResourceType>) {
    forall i, j :: 0 <= i < j < |ts| ==> Trim(ts[i].typ) != Trim(ts[j].typ)
  }

  /** The role's type is declared, and the relation exists on the definition it
      names; that name is looked up here without trimming. */
  ghost predicate ValidTemplate(role: RoleTemplate, ts: seq<ResourceType>, schema: Schema) {
    exists t :: t in ts && Trim(t.typ) == Trim(role.resourceType)
      && t.spicedbType in schema && Trim(role.relation) in schema[t.spicedbType].relations
  }

  ghost predicate Valid(m: PermissionManifest, schema: Schema) {
    && (forall t :: t in m.resourceTypes ==> ValidType(t, schema))
    && DistinctTypes(m.resourceTypes)
    && (forall role :: role in m.roleTemplates ==> ValidTemplate(role, m.resourceTypes, schema))
    && ValidBootstrap(m.bootstrap, schema)
  }

  /** The types read so far, by trimmed name. */
  ghost predicate Indexes(types: map<string, ResourceType>, ts: seq<ResourceType>) {
    && (forall t :: t in ts ==> Trim(t.typ) in types && types[Trim(t.typ)] == t)
    && (forall name :: name in types ==> types[name] in ts && Trim(types[name].typ) == name)
  }

  method CheckTypes(ts: seq<ResourceType>, schema: Schema) returns (ok: bool, types: map<string, ResourceType>)
    ensures ok <==> (forall t :: t in ts ==> ValidType(t, schema)) && DistinctTypes(ts)
    ensures ok ==> Indexes(types, ts)
  {
    hide Trim, ExactSet, Blank;
    types := map[];
    for i := 0 to |ts|
      invariant forall t :: t in ts[..i] ==> ValidType(t, schema)
      invariant DistinctTypes(ts[..i])
      invariant Indexes(types, ts[..i])
    {
      var t := ts[i];
      assert t in ts;
      assert ts[..i + 1] == ts[..i] + [t];
      var name := Trim(t.typ);
      if name == "" { return false, types; }
      if name in types {
        var j :| 0 <= j < i && ts[..i][j] == types[name];
        assert Trim(ts[j].typ) == Trim(ts[i].typ);
        return false, types;
      }
      assert forall j :: 0 <= j < i ==> ts[j] in ts[..i];
      types := types[name := t];
      var definitionName := Trim(t.spicedbType);
      if definitionName !in schema { return false, types; }
      var relations := ValidateExactSet(t.relations, schema[definitionName].relations);
      if !relations { return false, types; }
      var permissions := ValidateExactSet(t.permissions, schema[definitionName].permissions);
      if !permissions { return false, types; }
    }
    assert ts[..|ts|] == ts;
    ok := true;
  }

  method CheckTemplates(roles: seq<RoleTemplate>, ts: seq<ResourceType>, types: map<string, ResourceType>,
      schema: Schema)
    returns (ok: bool)
    requires Indexes(types, ts)
    ensures ok <==> forall role :: role in roles ==> ValidTemplate(role, ts, schema)
  {
    hide Trim;
    for i := 0 to |roles|
      invariant forall role :: role in roles[..i] ==> ValidTemplate(role, ts, schema)
    {
      var role := roles[i];
      assert role in roles;
      assert roles[..i + 1] == roles[..i] + [role];
      var name := Trim(role.resourceType);
      if name !in types { return false; }
      var t := types[name];
      if t.spicedbType !in schema || Trim(role.relation) !in schema[t.spicedbType].relations { return false; }
      assert t in ts;
    }
    assert roles[..|roles|] == roles;
    ok := true;
  }

  /** Accepts exactly the valid manifests; which error it reports is not modelled. */
  method Validate(m: PermissionManifest, schema: Schema) returns (ok: bool)
    ensures ok <==> Valid(m, schema)
  {
    hide ValidType, DistinctTypes, ValidTemplate, ValidBootstrap, Indexes;
    var types, good, templates;
    good, types := CheckTypes(m.resourceTypes, schema);
    if !good { return false; }
    templates := CheckTemplates(m.roleTemplates, m.resourceTypes, types, schema);
    if !templates { return false; }
    ok := ValidateBootstrap(m.bootstrap, schema);
  }

  // ---------- what validation gives resolution ----------

  lemma AliasIsCandidate(roles: map<string, BootstrapRole>, name: string, x: string) returns (k: nat)
    requires name in roles && HasAlias(roles[name], x)
    ensures k > 0 && IsCandidate(roles, name, k) && Candidate(roles, name, k) == x
  {
    hide Trim;
    var i :| 0 <= i < |roles[name].aliases| && Trim(roles[name].aliases[i]) == x;
    k := i + 1;
  }

  lemma AliasOwner(roles: map<string, BootstrapRole>, a: string, b: string, x: string)
    requires DistinctCandidates(roles) && a in roles && b in roles
    requires HasAlias(roles[a], x) && HasAlias(roles[b], x)
    ensures a == b
  {
    hide HasAlias, Candidate;
    var k := AliasIsCandidate(roles, a, x);
    var l := AliasIsCandidate(roles, b, x);
    assert Clash(roles, a, k, b, l);
  }

  lemma AliasIsNoName(roles: map<string, BootstrapRole>, name: string, x: string)
    requires DistinctCandidates(roles) && name in roles && HasAlias(roles[name], x)
    ensures x !in roles
  {
    hide HasAlias, Candidate, Trim;
    var k := AliasIsCandidate(roles, name, x);
    AliasTrimmed(roles[name], x);
    assert !Clash(roles, x, 0, name, k);
    if x in roles {
      KeyIsCandidate(roles, x);
    }
  }

  lemma KeyIsCandidate(roles: map<string, BootstrapRole>, x: string)
    requires x in roles && Trimmed(x)
    ensures IsCandidate(roles, x, 0) && Candidate(roles, x, 0) == x
  {
  }

  /** A valid policy resolves every role string the same way in every iteration order. */
  lemma ValidIsOrderIndependent(p: BootstrapPolicy, schema: Schema)
    requires ValidBootstrap(p, schema)
    ensures OrderIndependent(p)
  {
    hide HasAlias, OrderIndependent, DistinctCandidates, ValidRole, ValidResource, Resolves, Trim;
    forall a, b, x
      ensures !Ambiguous(p, a, b, x)
    {
      if a in p.roles && b in p.roles && HasAlias(p.roles[a], x) && HasAlias(p.roles[b], x) {
        AliasOwner(p.roles, a, b, x);
      }
    }
    OrderIndependentIff(p);
  }

  /** Under a valid policy a string resolves to exactly the role that has it, once
      trimmed, as its name or among its aliases; the blank string always resolves. */
  lemma ValidResolution(p: BootstrapPolicy, schema: Schema, order: seq<string>, role: string, name: string)
    requires ValidBootstrap(p, schema) && IterationOrder(p, order)
    ensures var x := Wanted(p, role);
      ResolveRole(p, order, role) == Some(name) <==> name in p.roles && (x == name || HasAlias(p.roles[name], x))
    ensures Blank(role) ==> ResolveRole(p, order, role).Some?
  {
    hide HasAlias, DistinctCandidates, ValidRole, ValidResource, Trim;
    var x := Wanted(p, role);
    if name in p.roles && HasAlias(p.roles[name], x) {
      AliasIsNoName(p.roles, name, x);
      var found := FirstWithAlias(p, order, x);
      assert name in order;
      AliasOwner(p.roles, found.value, name, x);
    }
    if Blank(role) {
      BlankWantsDefault(p, role);
    }
  }

  lemma BlankWantsDefault(p: BootstrapPolicy, role: string)
    requires Blank(role)
    ensures Wanted(p, role) == Wanted(p, p.defaultRole)
  {
  }

  /** What an accepted manifest says is what the schema declares: each type lists
      the relations and permissions of its definition, all of them and no others,
      and each role template grants a relation of its type's definition. */
  lemma AcceptedMatchesSchema(m: PermissionManifest, schema: Schema, t: ResourceType, name: string)
    requires Valid(m, schema) && t in m.resourceTypes
    ensures Trim(t.spicedbType) in schema
    ensures name in schema[Trim(t.spicedbType)].relations <==> exists x :: x in t.relations && Trim(x) == name
    ensures name in schema[Trim(t.spicedbType)].permissions <==> exists x :: x in t.permissions && Trim(x) == name
    ensures forall u :: u in m.resourceTypes && Trim(u.typ) == Trim(t.typ) ==> u == t
    ensures forall role :: role in m.roleTemplates && Trim(role.resourceType) == Trim(t.typ) ==>
      t.spicedbType in schema && Trim(role.relation) in schema[t.spicedbType].relations
  {
    hide ValidBootstrap, Trim;
    assert ValidType(t, schema);
    ExactSetMeans(t.relations, schema[Trim(t.spicedbType)].relations, name);
    ExactSetMeans(t.permissions, schema[Trim(t.spicedbType)].permissions, name);
    forall u | u in m.resourceTypes && Trim(u.typ) == Trim(t.typ)
      ensures u == t
    {
      SameNameSameType(m.resourceTypes, t, u);
    }
    forall role | role in m.roleTemplates && Trim(role.resourceType) == Trim(t.typ)
      ensures t.spicedbType in schema && Trim(role.relation) in schema[t.spicedbType].relations
    {
      assert ValidTemplate(role, m.resourceTypes, schema);
      var u :| u in m.resourceTypes && Trim(u.typ) == Trim(role.resourceType)
               && u.spicedbType in schema && Trim(role.relation) in schema[u.spicedbType].relations;
      SameNameSameType(m.resourceTypes, t, u);
    }
  }

  lemma ExactSetMeans(values: seq<string>, declared: map<string, string>, name: string)
    requires ExactSet(values, declared)
    ensures name in declared <==> exists x :: x in values && Trim(x) == name
  {
    hide Trim;
    assert name in declared <==> name in declared.Keys;
    assert name in TrimAll(values) <==> exists x :: x in values && Trim(x) == name;
  }

  lemma SameNameSameType(ts: seq<ResourceType>, t: ResourceType, u: ResourceType)
    requires DistinctTypes(ts) && t in ts && u in ts && Trim(t.typ) == Trim(u.typ)
    ensures t == u
  {
    hide Trim;
    var i :| 0 <= i < |ts| && ts[i] == t;
    var j :| 0 <= j < |ts| && ts[j] == u;
  }
}
