/** BootstrapAuthzSchema: the gates on a publish, one start-up as a step over the
    active schema text, and what survives any run of start-ups. */
module SchemaBootstrap {
  import opened Text
  import opened StringOrder
  import opened SchemaScan
  import opened SchemaParse
  import opened SchemaDiff

  // ---------- authorizeSchemaConflicts and the counters ----------

  datatype Gates = Gates(allowPermissionMigrations: bool, allowSchemaDeletions: bool)

  predicate Passes(conflict: string, gates: Gates) {
    var trimmed := Trim(conflict);
    if HasSuffix(trimmed, CHANGED) then gates.allowPermissionMigrations
    else if HasSuffix(trimmed, ONLY_ACTIVE) then gates.allowSchemaDeletions
    else false
  }

  method AuthorizeSchemaConflicts(conflicts: seq<string>, gates: Gates) returns (blocked: seq<string>)
    ensures blocked == [] <==> forall c :: c in conflicts ==> Passes(c, gates)
    ensures forall c :: c in blocked <==> c in conflicts && !Passes(c, gates)
  {
    hide Trim, HasSuffix;
    blocked := [];
    for i := 0 to |conflicts|
      invariant forall c :: c in blocked <==> c in conflicts[..i] && !Passes(c, gates)
    {
      var conflict := conflicts[i];
      var trimmed := Trim(conflict);
      if HasSuffix(trimmed, CHANGED) {
        if !gates.allowPermissionMigrations {
          blocked := blocked + [conflict];
        }
      } else if HasSuffix(trimmed, ONLY_ACTIVE) {
        if !gates.allowSchemaDeletions {
          blocked := blocked + [conflict];
        }
      } else {
        blocked := blocked + [conflict];
      }
      assert conflicts[..i + 1] == conflicts[..i] + [conflict];
    }
    assert conflicts[..|conflicts|] == conflicts;
    SomeMember(blocked);
  }

  function CountSuffix(conflicts: seq<string>, suffix: string): nat {
    if conflicts == [] then 0
    else
      var n := |conflicts| - 1;
      CountSuffix(conflicts[..n], suffix) + (if HasSuffix(Trim(conflicts[n]), suffix) then 1 else 0)
  }

  /** countChangedConflicts, with its suffix, and countDeletedConflicts, with the other. */
  method CountConflicts(conflicts: seq<string>, suffix: string) returns (n: nat)
    ensures n == CountSuffix(conflicts, suffix)
  {
    n := 0;
    for i := 0 to |conflicts|
      invariant n == CountSuffix(conflicts[..i], suffix)
    {
      assert conflicts[..i + 1][..i] == conflicts[..i];
      if HasSuffix(Trim(conflicts[i]), suffix) {
        n := n + 1;
      }
    }
    assert conflicts[..|conflicts|] == conflicts;
  }

  lemma ItemTextVisible(item: Item)
    ensures exists i :: 0 <= i < |ItemText(item)| && !IsSpace(ItemText(item)[i])
  {
    match item
    case ADefinition(name) =>
      assert ItemText(item)[0] == 'd' && !IsSpace('d');
    case AMember(d, kind, name) =>
      assert ItemText(item)[|d|] == '.' && !IsSpace('.');
  }

  lemma SuffixEnd(s: string, a: string)
    requires a != "" && HasSuffix(s, a)
    ensures s != "" && s[|s| - 1] == a[|a| - 1]
  {
  }

  /** Every conflict falls in exactly one gate. */
  lemma ConflictGate(c: Conflict)
    ensures HasSuffix(Trim(ConflictText(c)), CHANGED) <==> c.Changed?
    ensures HasSuffix(Trim(ConflictText(c)), ONLY_ACTIVE) <==> c.Gone?
  {
    hide Trim, HasSuffix, ItemText;
    ItemTextVisible(c.item);
    assert CHANGED[|CHANGED| - 1] == 'd' && ONLY_ACTIVE[|ONLY_ACTIVE| - 1] == 'a';
    TrimKeepsSuffix(ItemText(c.item), if c.Gone? then ONLY_ACTIVE else CHANGED);
    var trimmed := Trim(ConflictText(c));
    var suffix := if c.Gone? then ONLY_ACTIVE else CHANGED;
    SuffixEnd(trimmed, suffix);
    forall other | other != "" && HasSuffix(trimmed, other)
      ensures other[|other| - 1] == suffix[|suffix| - 1]
    {
      SuffixEnd(trimmed, other);
    }
  }

  ghost predicate IsConflictText(s: string) {
    exists c :: ConflictText(c) == s
  }

  lemma {:induction false} CountsAddUp(conflicts: seq<string>)
    requires forall s :: s in conflicts ==> IsConflictText(s)
    ensures CountSuffix(conflicts, CHANGED) + CountSuffix(conflicts, ONLY_ACTIVE) == |conflicts|
  {
    hide ConflictText;
    if conflicts != [] {
      var n := |conflicts| - 1;
      CountsAddUp(conflicts[..n]);
      assert IsConflictText(conflicts[n]);
      var c :| ConflictText(c) == conflicts[n];
      ConflictGate(c);
    }
  }

  lemma DiffConflictTexts(current: Schema, desired: Schema, d: SchemaDiff)
    requires IsDiff(current, desired, d)
    ensures forall s :: s in d.conflicts ==> exists c :: IsConflict(current, desired, c) && ConflictText(c) == s
    ensures forall c :: IsConflict(current, desired, c) ==> ConflictText(c) in d.conflicts
  {
    hide ConflictText, IsConflict, ItemText, OnlyIn, Le;
    var isConflict := c => IsConflict(current, desired, c);
    ListsMembers(d.conflicts, ConflictText, isConflict);
    forall s | s in d.conflicts
      ensures exists c :: IsConflict(current, desired, c) && ConflictText(c) == s
    {
      var c :| isConflict(c) && ConflictText(c) == s;
      assert IsConflict(current, desired, c);
    }
    forall c | IsConflict(current, desired, c)
      ensures ConflictText(c) in d.conflicts
    {
      assert isConflict(c);
    }
  }

  /** The two counters partition the conflicts of a comparison. */
  lemma ConflictCountsPartition(current: Schema, desired: Schema, d: SchemaDiff)
    requires IsDiff(current, desired, d)
    ensures CountSuffix(d.conflicts, CHANGED) + CountSuffix(d.conflicts, ONLY_ACTIVE) == |d.conflicts|
  {
    hide ConflictText, IsDiff;
    DiffConflictTexts(current, desired, d);
    CountsAddUp(d.conflicts);
  }

  // ---------- one start-up ----------

  /** The two gates in terms of the schemas: changed expressions need the first,
      lost declarations the second. */
  ghost predicate Authorized(current: Schema, desired: Schema, gates: Gates) {
    && (gates.allowPermissionMigrations || forall item :: !Differs(current, desired, item))
    && (gates.allowSchemaDeletions || forall item :: !OnlyIn(desired, current, item))
  }

  lemma AuthorizedIff(current: Schema, desired: Schema, d: SchemaDiff, gates: Gates)
    requires IsDiff(current, desired, d)
    ensures (forall s :: s in d.conflicts ==> Passes(s, gates)) <==> Authorized(current, desired, gates)
  {
    hide ConflictText, IsDiff, Trim, HasSuffix, Differs, OnlyIn;
    DiffConflictTexts(current, desired, d);
    forall c: Conflict
      ensures Passes(ConflictText(c), gates)
          <==> (if c.Changed? then gates.allowPermissionMigrations else gates.allowSchemaDeletions)
    {
      ConflictGate(c);
    }
    if forall s :: s in d.conflicts ==> Passes(s, gates) {
      forall item
        ensures Differs(current, desired, item) ==> gates.allowPermissionMigrations
        ensures OnlyIn(desired, current, item) ==> gates.allowSchemaDeletions
      {
        assert IsConflict(current, desired, Changed(item)) <==> Differs(current, desired, item);
        assert IsConflict(current, desired, Gone(item)) <==> OnlyIn(desired, current, item);
      }
    }
    if Authorized(current, desired, gates) {
      forall s | s in d.conflicts
        ensures Passes(s, gates)
      {
        var c :| IsConflict(current, desired, c) && ConflictText(c) == s;
      }
    }
  }

  /** What a start-up is given: whether a manager is configured, the schema file
      (None if it cannot be read or the path is blank), the gates, and whether the
      manager's calls succeed. */
  datatype Startup = Startup(configured: bool, file: Option<string>, gates: Gates, readOk: bool, validateOk: bool,
      writeOk: bool)

  datatype Outcome = Skipped | Unchanged | Published | Failed

  ghost function OutcomeOf(active: string, s: Startup): Outcome {
    if !s.configured then Skipped
    else if s.file == None || Blank(s.file.value) || Parse(s.file.value).Err? || !s.readOk || Parse(active).Err?
        then Failed
    else if !Authorized(Parse(active).value, Parse(s.file.value).value, s.gates) then Failed
    else if Parse(active).value == Parse(s.file.value).value then Unchanged
    else if !s.validateOk || !s.writeOk then Failed
    else Published
  }

  ghost function ActiveAfter(active: string, s: Startup): string {
    if OutcomeOf(active, s) == Published then s.file.value else active
  }

  class SchemaManager {
    var text: string
    var writes: nat

    constructor (text: string)
      ensures this.text == text && writes == 0
    {
      this.text, writes := text, 0;
    }

    method BootstrapAuthzSchema(s: Startup) returns (outcome: Outcome)
      modifies this
      ensures outcome == OutcomeOf(old(text), s)
      ensures text == ActiveAfter(old(text), s)
      ensures writes == old(writes) + (if outcome == Published then 1 else 0)
    {
      hide Parse, Authorized, IsDiff, Passes;
      if !s.configured { return Skipped; }
      if s.file == None || Blank(s.file.value) { return Failed; }
      var desired := ParseSchema(s.file.value);
      if desired.Err? { return Failed; }
      if !s.readOk { return Failed; }
      var active := ParseSchema(text);
      if active.Err? { return Failed; }
      var diff := CompareSchemas(active.value, desired.value);
      AuthorizedIff(active.value, desired.value, diff, s.gates);
      DiffMeaning(active.value, desired.value, diff);
      if |diff.conflicts| > 0 {
        var blocked := AuthorizeSchemaConflicts(diff.conflicts, s.gates);
        if |blocked| > 0 { return Failed; }
      }
      if diff.Identical() { return Unchanged; }
      if !s.validateOk { return Failed; }
      if !s.writeOk { return Failed; }
      text := s.file.value;
      writes := writes + 1;
      outcome := Published;
    }
  }

  // ---------- runs of start-ups ----------

  ghost function ActiveAfterAll(active: string, run: seq<Startup>): string {
    if run == [] then active
    else ActiveAfter(ActiveAfterAll(active, run[..|run| - 1]), run[|run| - 1])
  }

  /** What a start-up may publish: a readable file that parses and that the
      manager both validated and wrote. */
  ghost predicate Accepts(s: Startup, text: string) {
    s.configured && s.file == Some(text) && !Blank(text) && Parse(text).Ok? && s.readOk && s.validateOk && s.writeOk
  }

  /** Over any run of start-ups: the active text is the first one, or the file of
      some start-up that the manager validated and wrote; a refused text is never
      active. */
  lemma {:induction false} OnlyValidatedBecomesActive(active: string, run: seq<Startup>)
    ensures var text := ActiveAfterAll(active, run);
      text == active || exists k :: 0 <= k < |run| && Accepts(run[k], text)
    decreases |run|
  {
    hide Parse, Authorized;
    if run != [] {
      var n := |run| - 1;
      OnlyValidatedBecomesActive(active, run[..n]);
      var before := ActiveAfterAll(active, run[..n]);
      if before != active {
        var k :| 0 <= k < n && Accepts(run[..n][k], before);
        assert run[k] == run[..n][k];
      }
    }
  }

  /** One start-up changes the active text exactly when such a file declares
      something else and the gates its differences need are open. */
  lemma PublishesIff(active: string, s: Startup)
    ensures (OutcomeOf(active, s) == Published) <==>
      (&& s.file.Some? && Accepts(s, s.file.value) && Parse(active).Ok?
       && Parse(active).value != Parse(s.file.value).value
       && ((exists item :: Differs(Parse(active).value, Parse(s.file.value).value, item)) ==>
             s.gates.allowPermissionMigrations)
       && ((exists item :: OnlyIn(Parse(s.file.value).value, Parse(active).value, item)) ==>
             s.gates.allowSchemaDeletions))
    ensures OutcomeOf(active, s) == Skipped <==> !s.configured
    ensures OutcomeOf(active, s) == Unchanged <==>
      (&& s.configured && s.file.Some? && !Blank(s.file.value) && s.readOk && Parse(active).Ok?
       && Parse(active) == Parse(s.file.value))
    ensures ActiveAfter(active, s) != active ==> Accepts(s, ActiveAfter(active, s))
  {
    hide Parse, Differs, OnlyIn;
    if Parse(active).Ok? { SelfAuthorized(Parse(active).value, s.gates); }
  }

  lemma {:induction false} ActiveStaysParsable(active: string, run: seq<Startup>)
    requires Parse(active).Ok?
    ensures Parse(ActiveAfterAll(active, run)).Ok?
    decreases |run|
  {
    hide Parse, Authorized;
    if run != [] {
      ActiveStaysParsable(active, run[..|run| - 1]);
    }
  }

  lemma ClosedGatesContain(current: Schema, desired: Schema)
    requires Authorized(current, desired, Gates(false, false))
    ensures Contained(current, desired)
  {
    forall c
      ensures !IsConflict(current, desired, c)
    {
      assert !Differs(current, desired, c.item) && !OnlyIn(desired, current, c.item);
    }
    NoConflictIff(current, desired);
  }

  lemma StepContains(active: string, s: Startup)
    requires Parse(active).Ok? && s.gates == Gates(false, false)
    ensures Parse(ActiveAfter(active, s)).Ok?
    ensures Contained(Parse(active).value, Parse(ActiveAfter(active, s)).value)
  {
    hide Parse, Authorized, Contained;
    ContainedReflexive(Parse(active).value);
    if OutcomeOf(active, s) == Published {
      ClosedGatesContain(Parse(active).value, Parse(s.file.value).value);
    }
  }

  /** With both gates closed throughout, every declaration that was ever active
      stays active with the same expression. */
  lemma {:induction false} ClosedRunKeepsEverything(active: string, run: seq<Startup>, i: nat)
    requires Parse(active).Ok? && i <= |run|
    requires forall k :: 0 <= k < |run| ==> run[k].gates == Gates(false, false)
    ensures Parse(ActiveAfterAll(active, run[..i])).Ok? && Parse(ActiveAfterAll(active, run)).Ok?
    ensures Contained(Parse(ActiveAfterAll(active, run[..i])).value, Parse(ActiveAfterAll(active, run)).value)
    decreases |run|
  {
    hide Parse, Contained, ActiveAfter;
    ActiveStaysParsable(active, run);
    ActiveStaysParsable(active, run[..i]);
    if i == |run| {
      assert run[..i] == run;
      ContainedReflexive(Parse(ActiveAfterAll(active, run)).value);
    } else {
      var n := |run| - 1;
      assert run[..n][..i] == run[..i];
      ClosedRunKeepsEverything(active, run[..n], i);
      StepContains(ActiveAfterAll(active, run[..n]), run[n]);
      ContainedTransitive(Parse(ActiveAfterAll(active, run[..i])).value, Parse(ActiveAfterAll(active, run[..n])).value,
                          Parse(ActiveAfterAll(active, run)).value);
    }
  }

  /** Every declaration of a is declared in b, whatever its expression. */
  ghost predicate Covers(a: Schema, b: Schema) {
    forall d :: d in a ==>
                  && d in b
                  && (forall m :: m in a[d].relations ==> m in b[d].relations)
                  && (forall m :: m in a[d].permissions ==> m in b[d].permissions)
  }

  lemma NothingGoneCovers(current: Schema, desired: Schema)
    requires forall item :: !OnlyIn(desired, current, item)
    ensures Covers(current, desired)
  {
    forall d | d in current
      ensures d in desired
      ensures forall m :: m in current[d].relations ==> m in desired[d].relations
      ensures forall m :: m in current[d].permissions ==> m in desired[d].permissions
    {
      assert !OnlyIn(desired, current, ADefinition(d));
      forall m | m in current[d].relations
        ensures m in desired[d].relations
      {
        assert !OnlyIn(desired, current, AMember(d, Relation, m));
      }
      forall m | m in current[d].permissions
        ensures m in desired[d].permissions
      {
        assert !OnlyIn(desired, current, AMember(d, Permission, m));
      }
    }
  }

  /** With deletions closed throughout, no declaration is ever dropped. */
  lemma {:induction false} MigratingRunDropsNothing(active: string, run: seq<Startup>, i: nat)
    requires Parse(active).Ok? && i <= |run|
    requires forall k :: 0 <= k < |run| ==> !run[k].gates.allowSchemaDeletions
    ensures Parse(ActiveAfterAll(active, run[..i])).Ok? && Parse(ActiveAfterAll(active, run)).Ok?
    ensures Covers(Parse(ActiveAfterAll(active, run[..i])).value, Parse(ActiveAfterAll(active, run)).value)
    decreases |run|
  {
    hide Parse, OnlyIn, Differs;
    ActiveStaysParsable(active, run);
    ActiveStaysParsable(active, run[..i]);
    if i == |run| {
      assert run[..i] == run;
    } else {
      var n := |run| - 1;
      assert run[..n][..i] == run[..i];
      MigratingRunDropsNothing(active, run[..n], i);
      var before := ActiveAfterAll(active, run[..n]);
      if OutcomeOf(before, run[n]) == Published {
        NothingGoneCovers(Parse(before).value, Parse(run[n].file.value).value);
      }
    }
  }

  /** With migrations closed, a publish keeps the expression of every member it keeps. */
  lemma DeletingPublishChangesNothingKept(active: string, s: Startup, d: string, kind: Kind, m: string)
    requires Parse(active).Ok? && !s.gates.allowPermissionMigrations
    requires var a, b := Parse(active).value, Parse(ActiveAfter(active, s));
      && b.Ok? && d in a && d in b.value && m in MembersOf(a[d], kind) && m in MembersOf(b.value[d], kind)
    ensures MembersOf(Parse(active).value[d], kind)[m] == MembersOf(Parse(ActiveAfter(active, s)).value[d], kind)[m]
  {
    hide Parse;
    if OutcomeOf(active, s) == Published {
      assert !Differs(Parse(active).value, Parse(s.file.value).value, AMember(d, kind, m));
    }
  }

  /** Starting up again with the same file publishes nothing and leaves the text. */
  lemma RestartPublishesNothing(active: string, s: Startup, again: Startup)
    requires again.file == s.file && again.configured == s.configured
    requires OutcomeOf(active, s) == Published || OutcomeOf(active, s) == Unchanged
    ensures OutcomeOf(ActiveAfter(active, s), again) != Published
    ensures ActiveAfter(ActiveAfter(active, s), again) == ActiveAfter(active, s)
    ensures again.readOk ==> OutcomeOf(ActiveAfter(active, s), again) == Unchanged
  {
    hide Parse;
    var schema := Parse(s.file.value).value;
    SelfAuthorized(schema, again.gates);
  }

  lemma SelfAuthorized(schema: Schema, gates: Gates)
    ensures Authorized(schema, schema, gates)
  {
  }
}
