/** The tuples written at startup for the platform's administrators. */
module AdminBootstrap {
  import opened Text
  import opened SchemaParse
  import opened Relationships
  import opened Projection
  import opened Manifest

  /** What looking up the configured subject answers: nobody named, a tuple
      subject, or an error of the directory. */
  datatype Lookup = NoSubject | Found(subject: SubjectRef) | LookupFailed

  datatype AdminSubject = AdminSubject(role: string, zoneID: string, casdoorOrg: string, lookup: Lookup)

  datatype Config = Config(enabled: bool, subjects: seq<AdminSubject>)

  function ZoneOf(s: AdminSubject): string {
    FirstNonEmpty(s.zoneID, s.casdoorOrg)
  }

  function PlatformLink(typ: string, id: string, platformID: string): Relationship {
    Relationship(ObjectRef(typ, id), "platform", SubjectRef("platform", platformID, ""))
  }

  function ResourceTuples(platformID: string, resources: seq<AdminResource>): seq<Relationship> {
    if resources == [] then []
    else
      var n := |resources| - 1;
      var typ, id := Trim(resources[n].typ), Trim(resources[n].id);
      var own := if typ == "" || id == "" then [] else [PlatformLink(typ, id, platformID)];
      ResourceTuples(platformID, resources[..n]) + own
  }

  /** The object a role of this scope is held on; None when the scope is not
      supported or the zone is missing. */
  function Target(scope: string, platformID: string, zone: string): Option<ObjectRef> {
    if scope == "platform" then Some(ObjectRef("platform", platformID))
    else if scope == "zone" && zone != "" then Some(ObjectRef("zone", zone))
    else None
  }

  /** One subject's role tuple, after the link of its zone to the platform. */
  function RoleTuples(role: BootstrapRole, platformID: string, zone: string, subject: SubjectRef)
    : Option<seq<Relationship>>
  {
    var target := Target(Trim(role.scope), platformID, zone);
    var tuples := if zone == "" then [] else [PlatformLink("zone", zone, platformID)];
    if target == None then None else Some(tuples + [Relationship(target.value, Trim(role.relation), subject)])
  }

  function SubjectTuples(p: BootstrapPolicy, order: seq<string>, s: AdminSubject): Option<seq<Relationship>>
    requires forall name :: name in order ==> name in p.roles
  {
    var name := ResolveRole(p, order, s.role);
    if name == None then None
    else
      match s.lookup
      case LookupFailed => None
      case NoSubject => Some([])
      case Found(subject) => RoleTuples(p.roles[name.value], Trim(p.platformID), ZoneOf(s), subject)
  }

  function AllSubjectTuples(p: BootstrapPolicy, order: seq<string>, subjects: seq<AdminSubject>)
    : Option<seq<Relationship>>
    requires forall name :: name in order ==> name in p.roles
  {
    if subjects == [] then Some([])
    else
      var n := |subjects| - 1;
      var before, last := AllSubjectTuples(p, order, subjects[..n]), SubjectTuples(p, order, subjects[n]);
      if before == None || last == None then None else Some(before.value + last.value)
  }

  /** What a bootstrap writes; None when it fails before writing. */
  function AdminTuples(p: BootstrapPolicy, order: seq<string>, subjects: seq<AdminSubject>): Option<seq<Relationship>>
    requires forall name :: name in order ==> name in p.roles
  {
    var roles := AllSubjectTuples(p, order, subjects);
    if Blank(p.platformID) || roles == None then None
    else Some(ResourceTuples(Trim(p.platformID), p.platformResources) + roles.value)
  }

  /** `order` is the order in which role resolution happens to iterate. */
  method BootstrapControlPlaneAdmins(cfg: Config, p: BootstrapPolicy, order: seq<string>, writer: RelationshipStore)
    returns (ok: bool)
    requires forall name :: name in order ==> name in p.roles
    modifies writer
    ensures !cfg.enabled || cfg.subjects == [] ==>
        ok && writer.tuples == old(writer.tuples) && writer.calls == old(writer.calls)
    ensures cfg.enabled && cfg.subjects != [] ==>
      var rels := AdminTuples(p, order, cfg.subjects);
      if rels == None then !ok && writer.tuples == old(writer.tuples) && writer.calls == old(writer.calls)
      else
        && ok == (Dedupe(rels.value) == [] || !writer.fails(old(writer.calls)))
        && writer.tuples == old(writer.tuples) + (if ok then Elements(Dedupe(rels.value)) else {})
    ensures cfg.enabled && cfg.subjects != [] && ok && TuplesSeparable(p, cfg.subjects) ==>
      forall schema :: ValidBootstrap(p, schema) && IterationOrder(p, order) ==>
        forall r :: r in writer.tuples <==> r in old(writer.tuples) || (Bootstrapped(p, cfg.subjects, r) && !Zero(r))
  {
    hide AllSubjectTuples, Trim, ValidBootstrap, IterationOrder, Bootstrapped, TuplesSeparable, Zero;
    BootstrapStores(p, order, cfg.subjects);
    if !cfg.enabled || |cfg.subjects| == 0 { return true; }
    var platformID := Trim(p.platformID);
    if platformID == "" { return false; }
    var resources := CollectResources(platformID, p.platformResources);
    var roles, known := CollectSubjects(p, order, cfg.subjects, platformID);
    if !known { return false; }
    var rels := DedupeRelationships(resources + roles);
    if |rels| == 0 {
      assert Elements([]) == {};
      return true;
    }
    ok := writer.WriteRelationships(rels);
  }

  method CollectSubjects(p: BootstrapPolicy, order: seq<string>, subjects: seq<AdminSubject>, platformID: string)
    returns (rels: seq<Relationship>, ok: bool)
    requires forall name :: name in order ==> name in p.roles
    requires platformID == Trim(p.platformID)
    ensures AllSubjectTuples(p, order, subjects) == if ok then Some(rels) else None
  {
    hide SubjectTuples, Trim;
    rels := [];
    for i := 0 to |subjects|
      invariant AllSubjectTuples(p, order, subjects[..i]) == Some(rels)
    {
      assert subjects[..i + 1][..i] == subjects[..i];
      SubjectMustSucceed(p, order, subjects, i);
      var tuples, known := CollectSubject(p, order, subjects[i], platformID);
      if !known { return [], false; }
      rels := rels + tuples;
    }
    assert subjects[..|subjects|] == subjects;
    ok := true;
  }

  method CollectResources(platformID: string, resources: seq<AdminResource>) returns (rels: seq<Relationship>)
    ensures rels == ResourceTuples(platformID, resources)
  {
    hide Trim;
    rels := [];
    for i := 0 to |resources|
      invariant rels == ResourceTuples(platformID, resources[..i])
    {
      assert resources[..i + 1][..i] == resources[..i];
      var typ, id := Trim(resources[i].typ), Trim(resources[i].id);
      if typ == "" || id == "" { continue; }
      rels := rels + [PlatformLink(typ, id, platformID)];
    }
    assert resources[..|resources|] == resources;
  }

  /** The body of the loop over the subjects. */
  method CollectSubject(p: BootstrapPolicy, order: seq<string>, s: AdminSubject, platformID: string)
    returns (rels: seq<Relationship>, ok: bool)
    requires forall name :: name in order ==> name in p.roles
    requires platformID == Trim(p.platformID)
    ensures SubjectTuples(p, order, s) == if ok then Some(rels) else None
  {
    hide ResolveRole, FirstNonEmpty, Trim;
    rels, ok := [], false;
    var name := ResolveRole(p, order, s.role);
    if name == None { return; }
    var role := p.roles[name.value];
    match s.lookup
    case LookupFailed =>
    case NoSubject => ok := true;
    case Found(subject) =>
      var zone := ZoneOf(s);
      var resource := ObjectRef("", "");
      var scope := Trim(role.scope);
      if scope == "platform" {
        resource := ObjectRef("platform", platformID);
      } else if scope == "zone" {
        if zone == "" { return; }
        resource := ObjectRef("zone", zone);
      } else {
        return;
      }
      if zone != "" {
        rels := [PlatformLink("zone", zone, platformID)];
      }
      rels := rels + [Relationship(resource, Trim(role.relation), subject)];
      ok := true;
  }

  lemma {:induction false} SubjectMustSucceed(p: BootstrapPolicy, order: seq<string>, subjects: seq<AdminSubject>,
      i: nat)
    requires forall name :: name in order ==> name in p.roles
    requires i < |subjects|
    ensures SubjectTuples(p, order, subjects[i]) == None ==> AllSubjectTuples(p, order, subjects) == None
    decreases |subjects|
  {
    hide SubjectTuples;
    if i < |subjects| - 1 {
      SubjectMustSucceed(p, order, subjects[..|subjects| - 1], i);
    }
  }

  // ---------- what a valid policy gives ----------

  predicate Declared(schema: Schema, r: Relationship) {
    r.resource.typ in schema && r.relation in schema[r.resource.typ].relations
  }

  /** The subject asks for a role nobody has, the directory fails, or a zone role
      comes without a zone. */
  predicate Rejected(p: BootstrapPolicy, order: seq<string>, s: AdminSubject)
    requires forall name :: name in order ==> name in p.roles
  {
    var name := ResolveRole(p, order, s.role);
    || name == None
    || s.lookup == LookupFailed
    || (s.lookup.Found? && ZoneOf(s) == "" && Trim(p.roles[name.value].scope) == "zone")
  }

  lemma SubjectOutcome(p: BootstrapPolicy, schema: Schema, order: seq<string>, s: AdminSubject)
    requires ValidBootstrap(p, schema) && IterationOrder(p, order)
    ensures SubjectTuples(p, order, s) == None <==> Rejected(p, order, s)
    ensures var t := SubjectTuples(p, order, s); t.Some? ==> forall r :: r in t.value ==>
      (Declared(schema, r)
          || (s.lookup.Found? && ZoneOf(s) != "" && r == PlatformLink("zone", ZoneOf(s), Trim(p.platformID))))
    ensures var t := SubjectTuples(p, order, s); t.Some? && s.lookup.Found? && ZoneOf(s) != "" ==>
      PlatformLink("zone", ZoneOf(s), Trim(p.platformID)) in t.value
  {
    hide ResolveRole, FirstNonEmpty, Trim, DistinctCandidates, Resolves, ValidResource;
    var name := ResolveRole(p, order, s.role);
    if name.Some? {
      assert ValidRole(p.roles[name.value], schema);
    }
  }

  /** With a valid policy a bootstrap fails before writing exactly when one of
      its subjects is rejected. */
  lemma {:induction false} FailsIffRejected(p: BootstrapPolicy, schema: Schema, order: seq<string>,
      subjects: seq<AdminSubject>)
    requires ValidBootstrap(p, schema) && IterationOrder(p, order)
    ensures AllSubjectTuples(p, order, subjects) == None <==> exists s :: s in subjects && Rejected(p, order, s)
    ensures AdminTuples(p, order, subjects) == None <==> exists s :: s in subjects && Rejected(p, order, s)
  {
    hide SubjectTuples, Rejected, Trim, Blank, DistinctCandidates, Resolves, ValidResource, ValidRole;
    if subjects != [] {
      var n := |subjects| - 1;
      FailsIffRejected(p, schema, order, subjects[..n]);
      SubjectOutcome(p, schema, order, subjects[n]);
      assert subjects == subjects[..n] + [subjects[n]];
    }
  }

  /** Some subject that is found names a zone, so that zone is linked to the platform. */
  predicate LinksZone(subjects: seq<AdminSubject>) {
    exists s :: s in subjects && s.lookup.Found? && ZoneOf(s) != ""
  }

  predicate IsZoneLink(r: Relationship) {
    r.resource.typ == "zone" && r.relation == "platform"
  }

  lemma ZoneLinks(platformID: string)
    ensures forall zone :: IsZoneLink(PlatformLink("zone", zone, platformID))
  {
  }

  lemma {:induction false} ResourcesDeclared(schema: Schema, platformID: string, resources: seq<AdminResource>,
      r: Relationship)
    requires forall x :: x in resources ==> ValidResource(x, schema)
    requires r in ResourceTuples(platformID, resources)
    ensures Declared(schema, r)
  {
    hide Trim;
    var n := |resources| - 1;
    assert resources[n] in resources;
    if r in ResourceTuples(platformID, resources[..n]) {
      ResourcesDeclared(schema, platformID, resources[..n], r);
    }
  }

  lemma {:induction false} SubjectsDeclared(p: BootstrapPolicy, schema: Schema, order: seq<string>,
      subjects: seq<AdminSubject>)
    requires ValidBootstrap(p, schema) && IterationOrder(p, order)
    requires AllSubjectTuples(p, order, subjects).Some?
    ensures forall r :: r in AllSubjectTuples(p, order, subjects).value ==>
      (Declared(schema, r) || (IsZoneLink(r) && LinksZone(subjects)))
    ensures LinksZone(subjects) ==> (exists r :: r in AllSubjectTuples(p, order, subjects).value && IsZoneLink(r))
  {
    hide SubjectTuples, ZoneOf, Declared, ValidBootstrap, IsZoneLink, PlatformLink, Trim;
    ZoneLinks(Trim(p.platformID));
    if subjects != [] {
      var n := |subjects| - 1;
      var s := subjects[n];
      SubjectsDeclared(p, schema, order, subjects[..n]);
      SubjectOutcome(p, schema, order, s);
      assert subjects == subjects[..n] + [s];
      var link := PlatformLink("zone", ZoneOf(s), Trim(p.platformID));
      assert LinksZone(subjects) <==> LinksZone(subjects[..n]) || (s.lookup.Found? && ZoneOf(s) != "");
      if s.lookup.Found? && ZoneOf(s) != "" {
        assert link in AllSubjectTuples(p, order, subjects).value;
      }
    }
  }

  /** Under a valid policy every tuple built uses a relation that the schema
      declares, unless a subject's zone is linked to the platform and the schema
      lets zones have no platform: validation does not ask for that relation. */
  lemma DeclaredIff(p: BootstrapPolicy, schema: Schema, order: seq<string>, subjects: seq<AdminSubject>)
    requires ValidBootstrap(p, schema) && IterationOrder(p, order)
    requires AdminTuples(p, order, subjects).Some?
    ensures var rels := AdminTuples(p, order, subjects).value;
      && (forall r :: r in rels ==> Declared(schema, r) || IsZoneLink(r))
      && ((forall r :: r in rels ==> Declared(schema, r))
          <==> "platform" in schema["zone"].relations || !LinksZone(subjects))
  {
    hide AllSubjectTuples, ResourceTuples, ValidResource, ValidRole, DistinctCandidates, Resolves, LinksZone, Trim,
        Blank;
    var rels := AdminTuples(p, order, subjects).value;
    var resources, roles := ResourceTuples(Trim(p.platformID), p.platformResources),
        AllSubjectTuples(p, order, subjects).value;
    SubjectsDeclared(p, schema, order, subjects);
    forall r | r in resources
      ensures Declared(schema, r)
    {
      ResourcesDeclared(schema, Trim(p.platformID), p.platformResources, r);
    }
    assert forall r :: r in rels <==> r in resources || r in roles;
  }

  /** Under a valid policy what is written does not depend on the iteration order. */
  lemma {:induction false} SameInEveryOrder(p: BootstrapPolicy, schema: Schema, o1: seq<string>, o2: seq<string>,
      subjects: seq<AdminSubject>)
    requires ValidBootstrap(p, schema) && IterationOrder(p, o1) && IterationOrder(p, o2)
    ensures AllSubjectTuples(p, o1, subjects) == AllSubjectTuples(p, o2, subjects)
    ensures AdminTuples(p, o1, subjects) == AdminTuples(p, o2, subjects)
  {
    hide ValidBootstrap, ResolveRole, ResourceTuples, Trim, FirstNonEmpty;
    if subjects != [] {
      SameInEveryOrder(p, schema, o1, o2, subjects[..|subjects| - 1]);
      ValidIsOrderIndependent(p, schema);
      assert ResolveRole(p, o1, subjects[|subjects| - 1].role) == ResolveRole(p, o2, subjects[|subjects| - 1].role);
    }
  }

  /** Every resolved role of a valid policy is held on the platform or on a zone. */
  lemma ResolvedScope(p: BootstrapPolicy, schema: Schema, order: seq<string>, role: string)
    requires ValidBootstrap(p, schema) && IterationOrder(p, order)
    ensures var name := ResolveRole(p, order, role);
      name.Some? ==> IsScope(Trim(p.roles[name.value].scope))
                     && Declared(schema, Relationship(ObjectRef(Trim(p.roles[name.value].scope), ""),
                         Trim(p.roles[name.value].relation), SubjectRef("", "", "")))
  {
    hide ResolveRole, DistinctCandidates, Resolves, ValidResource, Trim;
    var name := ResolveRole(p, order, role);
    if name.Some? {
      assert ValidRole(p.roles[name.value], schema);
    }
  }

  // ---------- tuple by tuple ----------

  function LinkToPlatform(p: BootstrapPolicy, typ: string, id: string): Relationship {
    Relationship(ObjectRef(typ, id), "platform", SubjectRef("platform", Trim(p.platformID), ""))
  }

  /** The zone a subject is configured with; empty if none is. */
  function OwnZone(s: AdminSubject): string {
    if !Blank(s.zoneID) then Trim(s.zoneID) else Trim(s.casdoorOrg)
  }

  /** The role a subject is configured with, by name or alias, blank meaning the
      policy's default. */
  predicate HasRole(p: BootstrapPolicy, s: AdminSubject, name: string) {
    var x := if Blank(s.role) then Trim(p.defaultRole) else Trim(s.role);
    name in p.roles && (x == name || exists alias :: alias in p.roles[name].aliases && Trim(alias) == x)
  }

  /** The role's relation, held by the subject on the platform or on its own zone. */
  predicate IsRoleTuple(p: BootstrapPolicy, s: AdminSubject, role: BootstrapRole, r: Relationship) {
    && s.lookup == Found(r.subject)
    && r.relation == Trim(role.relation)
    && r.resource == (if Trim(role.scope) == "platform" then ObjectRef("platform", Trim(p.platformID))
        else ObjectRef("zone", OwnZone(s)))
  }

  ghost predicate GrantedTo(p: BootstrapPolicy, s: AdminSubject, r: Relationship) {
    || (s.lookup.Found? && OwnZone(s) != "" && r == LinkToPlatform(p, "zone", OwnZone(s)))
    || exists name :: HasRole(p, s, name) && IsRoleTuple(p, s, p.roles[name], r)
  }

  predicate LinkOf(p: BootstrapPolicy, x: AdminResource, r: Relationship) {
    Trim(x.typ) != "" && Trim(x.id) != "" && r == LinkToPlatform(p, Trim(x.typ), Trim(x.id))
  }

  predicate LinkOfSome(p: BootstrapPolicy, resources: seq<AdminResource>, r: Relationship) {
    exists x :: x in resources && LinkOf(p, x, r)
  }

  ghost predicate Bootstrapped(p: BootstrapPolicy, subjects: seq<AdminSubject>, r: Relationship) {
    || LinkOfSome(p, p.platformResources, r)
    || (exists s :: s in subjects && GrantedTo(p, s, r))
  }

  lemma OneResource(p: BootstrapPolicy, resources: seq<AdminResource>, r: Relationship)
    requires resources != []
    ensures var n := |resources| - 1;
      r in ResourceTuples(Trim(p.platformID), resources) <==>
        r in ResourceTuples(Trim(p.platformID), resources[..n]) || LinkOf(p, resources[n], r)
  {
    hide Trim;
  }

  lemma {:induction false} ResourceTuplesAre(p: BootstrapPolicy, resources: seq<AdminResource>, r: Relationship)
    ensures r in ResourceTuples(Trim(p.platformID), resources) <==> LinkOfSome(p, resources, r)
  {
    if resources == [] {
      assert !LinkOfSome(p, [], r);
    } else {
      hide ResourceTuples, LinkOfSome, Trim;
      ResourceTuplesAre(p, resources[..|resources| - 1], r);
      OneResource(p, resources, r);
      LinkOfSomeStep(p, resources, r);
    }
  }

  lemma LinkOfSomeStep(p: BootstrapPolicy, resources: seq<AdminResource>, r: Relationship)
    requires resources != []
    ensures var n := |resources| - 1;
      LinkOfSome(p, resources, r) <==> LinkOfSome(p, resources[..n], r) || LinkOf(p, resources[n], r)
  {
    hide LinkOf;
    assert resources == resources[..|resources| - 1] + [resources[|resources| - 1]];
  }

  lemma HasRoleIff(p: BootstrapPolicy, schema: Schema, order: seq<string>, s: AdminSubject, name: string)
    requires ValidBootstrap(p, schema) && IterationOrder(p, order)
    ensures HasRole(p, s, name) <==> ResolveRole(p, order, s.role) == Some(name)
  {
    hide ValidBootstrap, IterationOrder, ResolveRole, Trim;
    ValidResolution(p, schema, order, s.role, name);
    if name in p.roles {
      AliasIn(p.roles[name], Wanted(p, s.role));
    }
  }

  lemma AliasIn(role: BootstrapRole, x: string)
    ensures HasAlias(role, x) <==> exists alias :: alias in role.aliases && Trim(alias) == x
  {
    hide Trim;
  }

  lemma RoleTuplesAre(p: BootstrapPolicy, s: AdminSubject, role: BootstrapRole, subject: SubjectRef, r: Relationship)
    requires s.lookup == Found(subject) && IsScope(Trim(role.scope))
    requires RoleTuples(role, Trim(p.platformID), ZoneOf(s), subject).Some?
    ensures r in RoleTuples(role, Trim(p.platformID), ZoneOf(s), subject).value <==>
      (OwnZone(s) != "" && r == LinkToPlatform(p, "zone", OwnZone(s))) || IsRoleTuple(p, s, role, r)
  {
    hide Trim;
  }

  lemma SubjectTuplesAre(p: BootstrapPolicy, schema: Schema, order: seq<string>, s: AdminSubject, r: Relationship)
    requires ValidBootstrap(p, schema) && IterationOrder(p, order) && SubjectTuples(p, order, s).Some?
    ensures r in SubjectTuples(p, order, s).value <==> GrantedTo(p, s, r)
  {
    hide ValidBootstrap, ResolveRole, RoleTuples, IsRoleTuple, LinkToPlatform, HasRole, Trim;
    var name := ResolveRole(p, order, s.role).value;
    forall other
      ensures HasRole(p, s, other) <==> other == name
    {
      HasRoleIff(p, schema, order, s, other);
    }
    match s.lookup {
      case NoSubject => OnlyFound(p, s, p.roles[name], r);
      case Found(subject) =>
        ResolvedScope(p, schema, order, s.role);
        RoleTuplesAre(p, s, p.roles[name], subject, r);
    }
  }

  lemma OnlyFound(p: BootstrapPolicy, s: AdminSubject, role: BootstrapRole, r: Relationship)
    ensures IsRoleTuple(p, s, role, r) ==> s.lookup.Found?
  {
  }

  lemma {:induction false} AllSubjectTuplesAre(p: BootstrapPolicy, schema: Schema, order: seq<string>,
      subjects: seq<AdminSubject>, r: Relationship)
    requires ValidBootstrap(p, schema) && IterationOrder(p, order)
    requires AllSubjectTuples(p, order, subjects).Some?
    ensures r in AllSubjectTuples(p, order, subjects).value <==> exists s :: s in subjects && GrantedTo(p, s, r)
  {
    hide ValidBootstrap, SubjectTuples, GrantedTo;
    if subjects != [] {
      var n := |subjects| - 1;
      AllSubjectTuplesAre(p, schema, order, subjects[..n], r);
      SubjectTuplesAre(p, schema, order, subjects[n], r);
      assert subjects == subjects[..n] + [subjects[n]];
    }
  }

  /** Under a valid policy the tuples of a bootstrap are exactly these: the
      platform link of each platform resource, and for each subject found the
      platform link of its zone and its role. */
  lemma AdminTuplesExact(p: BootstrapPolicy, schema: Schema, order: seq<string>, subjects: seq<AdminSubject>,
      r: Relationship)
    requires ValidBootstrap(p, schema) && IterationOrder(p, order)
    requires AdminTuples(p, order, subjects).Some?
    ensures r in AdminTuples(p, order, subjects).value <==> Bootstrapped(p, subjects, r)
  {
    hide ValidBootstrap, AllSubjectTuples, ResourceTuples, GrantedTo, LinkOfSome, Trim, Blank;
    AllSubjectTuplesAre(p, schema, order, subjects, r);
    ResourceTuplesAre(p, p.platformResources, r);
  }

  /** No name that ends up in a tuple holds a separator. */
  ghost predicate TuplesSeparable(p: BootstrapPolicy, subjects: seq<AdminSubject>) {
    forall r :: Bootstrapped(p, subjects, r) && !Zero(r) ==> Separable(r)
  }

  lemma StoredExactly(p: BootstrapPolicy, schema: Schema, order: seq<string>, subjects: seq<AdminSubject>)
    requires ValidBootstrap(p, schema) && IterationOrder(p, order) && AdminTuples(p, order, subjects).Some?
    requires TuplesSeparable(p, subjects)
    ensures forall r :: r in Elements(Dedupe(AdminTuples(p, order, subjects).value)) <==>
      Bootstrapped(p, subjects, r) && !Zero(r)
  {
    hide ValidBootstrap, AdminTuples, Bootstrapped, Separable, Zero, Dedupe;
    var rels := AdminTuples(p, order, subjects).value;
    forall r
      ensures r in rels <==> Bootstrapped(p, subjects, r)
    {
      AdminTuplesExact(p, schema, order, subjects, r);
    }
    DedupeSeparable(rels);
  }

  lemma BootstrapStores(p: BootstrapPolicy, order: seq<string>, subjects: seq<AdminSubject>)
    requires forall name :: name in order ==> name in p.roles
    ensures var rels := AdminTuples(p, order, subjects);
      rels.Some? && TuplesSeparable(p, subjects) ==>
        forall schema :: ValidBootstrap(p, schema) && IterationOrder(p, order) ==>
          forall r :: r in Elements(Dedupe(rels.value)) <==> Bootstrapped(p, subjects, r) && !Zero(r)
  {
    hide ValidBootstrap, AdminTuples, Bootstrapped, TuplesSeparable, Zero, Dedupe;
    if AdminTuples(p, order, subjects).Some? && TuplesSeparable(p, subjects) {
      forall schema | ValidBootstrap(p, schema) && IterationOrder(p, order)
        ensures forall r :: r in Elements(Dedupe(AdminTuples(p, order, subjects).value)) <==>
            Bootstrapped(p, subjects, r) && !Zero(r)
      {
        StoredExactly(p, schema, order, subjects);
      }
    }
  }
}
