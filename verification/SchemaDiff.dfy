/** CompareSchemas: what its two sorted lists say about the schemas. */
module SchemaDiff {
  import opened Text
  import opened StringOrder
  import opened SchemaScan
  import opened SchemaParse
  import opened SchemaBlocks

  // ---------- what a difference is ----------

  datatype Item = ADefinition(name: string) | AMember(definition: string, kind: Kind, name: string)

  datatype Conflict = Gone(item: Item) | Changed(item: Item)

  function MembersOf(def: Definition, kind: Kind): map<string, string> {
    if kind == Relation then def.relations else def.permissions
  }

  /** The item is declared by b and not by a; members count only under a
      definition both have. */
  predicate OnlyIn(a: Schema, b: Schema, item: Item) {
    match item
    case ADefinition(name) => name in b && name !in a
    case AMember(d, kind, name) =>
      d in a && d in b && name in MembersOf(b[d], kind) && name !in MembersOf(a[d], kind)
  }

  predicate Differs(a: Schema, b: Schema, item: Item) {
    && item.AMember? && item.definition in a && item.definition in b
    && item.name in MembersOf(a[item.definition], item.kind) && item.name in MembersOf(b[item.definition], item.kind)
    && MembersOf(a[item.definition], item.kind)[item.name] != MembersOf(b[item.definition], item.kind)[item.name]
  }

  predicate IsConflict(current: Schema, desired: Schema, c: Conflict) {
    match c
    case Gone(item) => OnlyIn(desired, current, item)
    case Changed(item) => Differs(current, desired, item)
  }

  // ---------- how it is rendered ----------

  const ONLY_ACTIVE := " exists only in active schema"
  const CHANGED := " changed"

  function KindText(kind: Kind): string {
    if kind == Relation then RELATION else PERMISSION
  }

  function Path(definition: string, kind: Kind, name: string): string {
    definition + "." + (KindText(kind) + "." + name)
  }

  function ItemText(item: Item): string {
    match item
    case ADefinition(name) => "definition " + name
    case AMember(d, kind, name) => Path(d, kind, name)
  }

  function ConflictText(c: Conflict): string {
    ItemText(c.item) + (if c.Gone? then ONLY_ACTIVE else CHANGED)
  }

  // ---------- CompareSchemas ----------

  /** The lists under construction, each with the items it renders. */
  class Diff {
    var additions: seq<string>
    var conflicts: seq<string>
    ghost var added: seq<Item>
    ghost var conflicting: seq<Conflict>

    ghost predicate Valid()
      reads this
    {
      && additions == Rendered(added, ItemText) && NoDuplicates(added)
      && conflicts == Rendered(conflicting, ConflictText) && NoDuplicates(conflicting)
    }

    constructor ()
      ensures Valid() && added == [] && conflicting == []
    {
      additions, conflicts, added, conflicting := [], [], [], [];
    }

    method AddConflict(c: Conflict)
      requires Valid() && c !in conflicting
      modifies this`conflicts, this`conflicting
      ensures Valid() && conflicting == old(conflicting) + [c]
    {
      hide ConflictText;
      conflicts := conflicts + [ConflictText(c)];
      conflicting := conflicting + [c];
    }

    method AddAddition(item: Item)
      requires Valid() && item !in added
      modifies this`additions, this`added
      ensures Valid() && added == old(added) + [item]
    {
      hide ItemText;
      additions := additions + [ItemText(item)];
      added := added + [item];
    }
  }

  /** A conflict of this definition and kind about one of these names. */
  ghost predicate MemberConflict(definition: string, kind: Kind, current: map<string, string>,
                                 desired: map<string, string>,
                                 names: set<string>, c: Conflict) {
    && c.item.AMember? && c.item.definition == definition && c.item.kind == kind
    && c.item.name in names && c.item.name in current
    && (if c.Gone? then c.item.name !in desired
        else c.item.name in desired && current[c.item.name] != desired[c.item.name])
  }

  method CompareMembers(definition: string, kind: Kind, current: map<string, string>, desired: map<string, string>,
      diff: Diff)
    requires diff.Valid()
    requires forall c :: c in diff.conflicting ==>
        !(c.item.AMember? && c.item.definition == definition && c.item.kind == kind)
    modifies diff`conflicts, diff`conflicting
    ensures diff.Valid()
    ensures forall c :: c in diff.conflicting <==>
      c in old(diff.conflicting) || MemberConflict(definition, kind, current, desired, current.Keys, c)
  {
    ghost var before := diff.conflicting;
    var rest := current.Keys;
    while rest != {}
      invariant rest <= current.Keys && diff.Valid()
      invariant forall c :: c in diff.conflicting <==>
        c in before || MemberConflict(definition, kind, current, desired, current.Keys - rest, c)
      decreases rest
    {
      var name :| name in rest;
      rest := rest - {name};
      var item := AMember(definition, kind, name);
      if name !in desired {
        diff.AddConflict(Gone(item));
      } else if current[name] != desired[name] {
        diff.AddConflict(Changed(item));
      }
    }
    assert current.Keys - rest == current.Keys;
  }

  method AppendMissingMembers(definition: string, kind: Kind, current: map<string, string>,
      desired: map<string, string>, diff: Diff)
    requires diff.Valid()
    requires forall item :: item in diff.added ==>
        !(item.AMember? && item.definition == definition && item.kind == kind)
    modifies diff`additions, diff`added
    ensures diff.Valid()
    ensures forall item :: item in diff.added <==>
      || item in old(diff.added)
      || (item.AMember? && item.definition == definition && item.kind == kind && item.name in desired
          && item.name !in current)
  {
    ghost var before := diff.added;
    var rest := desired.Keys;
    while rest != {}
      invariant rest <= desired.Keys && diff.Valid()
      invariant forall item :: item in diff.added <==>
        || item in before
        || (item.AMember? && item.definition == definition && item.kind == kind
            && item.name in desired.Keys - rest && item.name !in current)
      decreases rest
    {
      var name :| name in rest;
      rest := rest - {name};
      if name !in current {
        diff.AddAddition(AMember(definition, kind, name));
      }
    }
  }

  function NameOf(item: Item): string {
    if item.ADefinition? then item.name else item.definition
  }

  /** The texts are the sorted rendering of exactly the items that belong. */
  ghost predicate Lists<T(!new)>(texts: seq<string>, text: T -> string, belongs: T -> bool) {
    exists items: seq<T> :: NoDuplicates(items) && (forall x :: x in items <==> belongs(x))
      && Sorted(texts) && multiset(texts) == multiset(Rendered(items, text))
  }

  datatype SchemaDiff = SchemaDiff(additions: seq<string>, conflicts: seq<string>) {
    predicate Identical() {
      |additions| == 0 && |conflicts| == 0
    }

    predicate Additive() {
      |additions| > 0 && |conflicts| == 0
    }
  }

  ghost predicate IsDiff(current: Schema, desired: Schema, d: SchemaDiff) {
    && Lists(d.additions, ItemText, item => OnlyIn(current, desired, item))
    && Lists(d.conflicts, ConflictText, c => IsConflict(current, desired, c))
  }

  method CollectConflicts(current: Schema, desired: Schema, diff: Diff)
    requires diff.Valid() && diff.conflicting == []
    modifies diff`conflicts, diff`conflicting
    ensures diff.Valid() && forall c :: c in diff.conflicting <==> IsConflict(current, desired, c)
  {
    var rest := current.Keys;
    while rest != {}
      invariant rest <= current.Keys && diff.Valid()
      invariant forall c :: c in diff.conflicting <==> IsConflict(current, desired, c) && NameOf(c.item) !in rest
      decreases rest
    {
      var name :| name in rest;
      ghost var before := diff.conflicting;
      rest := rest - {name};
      if name !in desired {
        diff.AddConflict(Gone(ADefinition(name)));
      } else {
        CompareMembers(name, Relation, current[name].relations, desired[name].relations, diff);
        CompareMembers(name, Permission, current[name].permissions, desired[name].permissions, diff);
      }
      forall c
        ensures c in diff.conflicting <==> IsConflict(current, desired, c) && NameOf(c.item) !in rest
      {
        ConflictOfDefinition(current, desired, name, c);
      }
    }
  }

  /** The conflicts that concern one definition. */
  lemma ConflictOfDefinition(current: Schema, desired: Schema, name: string, c: Conflict)
    requires name in current
    ensures IsConflict(current, desired, c) && NameOf(c.item) == name <==>
      if name !in desired then c == Gone(ADefinition(name))
      else
        || MemberConflict(name, Relation, current[name].relations, desired[name].relations,
            current[name].relations.Keys, c)
        || MemberConflict(name, Permission, current[name].permissions, desired[name].permissions,
            current[name].permissions.Keys, c)
  {
  }

  method CollectAdditions(current: Schema, desired: Schema, diff: Diff)
    requires diff.Valid() && diff.added == []
    modifies diff`additions, diff`added
    ensures diff.Valid() && forall item :: item in diff.added <==> OnlyIn(current, desired, item)
  {
    var rest := desired.Keys;
    while rest != {}
      invariant rest <= desired.Keys && diff.Valid()
      invariant forall item :: item in diff.added <==> OnlyIn(current, desired, item) && NameOf(item) !in rest
      decreases rest
    {
      var name :| name in rest;
      rest := rest - {name};
      if name !in current {
        diff.AddAddition(ADefinition(name));
      } else {
        AppendMissingMembers(name, Relation, current[name].relations, desired[name].relations, diff);
        AppendMissingMembers(name, Permission, current[name].permissions, desired[name].permissions, diff);
      }
    }
  }

  method CompareSchemas(current: Schema, desired: Schema) returns (d: SchemaDiff)
    ensures IsDiff(current, desired, d)
  {
    hide ItemText, ConflictText, IsConflict, OnlyIn, Le;
    var diff := new Diff();
    CollectConflicts(current, desired, diff);
    CollectAdditions(current, desired, diff);
    d := SchemaDiff(Sort(diff.additions), Sort(diff.conflicts));
    SortSorted(diff.additions);
    SortSorted(diff.conflicts);
    assert Lists(d.additions, ItemText, item => OnlyIn(current, desired, item)) by {
      ListsBy(diff.added, d.additions, ItemText, item => OnlyIn(current, desired, item));
    }
    assert Lists(d.conflicts, ConflictText, c => IsConflict(current, desired, c)) by {
      ListsBy(diff.conflicting, d.conflicts, ConflictText, c => IsConflict(current, desired, c));
    }
  }

  lemma ListsBy<T(!new)>(items: seq<T>, texts: seq<string>, text: T -> string, belongs: T -> bool)
    requires NoDuplicates(items) && forall x :: x in items <==> belongs(x)
    requires Sorted(texts) && multiset(texts) == multiset(Rendered(items, text))
    ensures Lists(texts, text, belongs)
  {
  }

  // ---------- the output does not depend on map iteration order ----------

  lemma ListsUnique<T(!new)>(a: seq<string>, b: seq<string>, text: T -> string, belongs: T -> bool)
    requires Lists(a, text, belongs) && Lists(b, text, belongs)
    ensures a == b
  {
    hide Le;
    var xs: seq<T> :| NoDuplicates(xs) && (forall x :: x in xs <==> belongs(x))
      && Sorted(a) && multiset(a) == multiset(Rendered(xs, text));
    var ys: seq<T> :| NoDuplicates(ys) && (forall x :: x in ys <==> belongs(x))
      && Sorted(b) && multiset(b) == multiset(Rendered(ys, text));
    RenderedMultiset(xs, ys, text);
    SortedUnique(a, b);
  }

  /** Whatever order the maps were iterated in, the result is the same. */
  lemma DiffIsDetermined(current: Schema, desired: Schema, d: SchemaDiff, e: SchemaDiff)
    requires IsDiff(current, desired, d) && IsDiff(current, desired, e)
    ensures d == e
  {
    hide Lists;
    ListsUnique(d.additions, e.additions, ItemText, item => OnlyIn(current, desired, item));
    ListsUnique(d.conflicts, e.conflicts, ConflictText, c => IsConflict(current, desired, c));
  }

  lemma ListsEmptyIff<T(!new)>(texts: seq<string>, text: T -> string, belongs: T -> bool)
    requires Lists(texts, text, belongs)
    ensures texts == [] <==> forall x :: !belongs(x)
  {
    hide Le;
    var xs: seq<T> :| NoDuplicates(xs) && (forall x :: x in xs <==> belongs(x))
      && Sorted(texts) && multiset(texts) == multiset(Rendered(xs, text));
    SameSize(texts, Rendered(xs, text));
    if xs != [] {
      assert xs[0] in xs;
    }
  }

  lemma ListsMembers<T(!new)>(texts: seq<string>, text: T -> string, belongs: T -> bool)
    requires Lists(texts, text, belongs)
    ensures forall x :: belongs(x) ==> text(x) in texts
    ensures forall t :: t in texts ==> exists x :: belongs(x) && text(x) == t
  {
    hide Le;
    var xs: seq<T> :| NoDuplicates(xs) && (forall x :: x in xs <==> belongs(x))
      && Sorted(texts) && multiset(texts) == multiset(Rendered(xs, text));
    var r := Rendered(xs, text);
    assert forall i :: 0 <= i < |xs| ==> xs[i] in xs;
    forall x | belongs(x)
      ensures text(x) in texts
    {
      var i :| 0 <= i < |xs| && xs[i] == x;
      assert r[i] in multiset(r);
    }
    forall t | t in texts
      ensures exists x :: belongs(x) && text(x) == t
    {
      assert t in multiset(texts);
      var i :| 0 <= i < |r| && r[i] == t;
    }
  }

  /** The texts list each item once, as long as different items render differently. */
  lemma ListsExactly<T(!new)>(texts: seq<string>, text: T -> string, belongs: T -> bool)
    requires Lists(texts, text, belongs)
    requires forall x, y :: belongs(x) && belongs(y) && text(x) == text(y) ==> x == y
    ensures NoDuplicates(texts)
    ensures forall x :: belongs(x) ==> text(x) in texts
    ensures forall t :: t in texts ==> exists x :: belongs(x) && text(x) == t
  {
    hide Le;
    var xs: seq<T> :| NoDuplicates(xs) && (forall x :: x in xs <==> belongs(x))
      && Sorted(texts) && multiset(texts) == multiset(Rendered(xs, text));
    assert forall i :: 0 <= i < |xs| ==> xs[i] in xs;
    NoDuplicatesByMultiset(Rendered(xs, text), texts);
    ListsMembers(texts, text, belongs);
  }

  // ---------- different items render differently ----------

  ghost predicate WellNamedItem(item: Item) {
    match item
    case ADefinition(name) => Identifier(name)
    case AMember(d, _, name) => Identifier(d) && Identifier(name)
  }

  lemma IdentifierHasNo(s: string)
    requires Identifier(s)
    ensures '.' !in s && ' ' !in s
  {
  }

  lemma ItemTextInjective(a: Item, b: Item)
    requires WellNamedItem(a) && WellNamedItem(b) && ItemText(a) == ItemText(b)
    ensures a == b
  {
    hide Identifier;
    match (a, b)
    case (ADefinition(m), ADefinition(n)) =>
      assert m == ItemText(a)[11..] && n == ItemText(b)[11..];
    case (ADefinition(m), AMember(d, kind, n)) => DefinitionIsNoPath(m, d, kind, n);
    case (AMember(d, kind, n), ADefinition(m)) => DefinitionIsNoPath(m, d, kind, n);
    case (AMember(d, kind, m), AMember(e, kind', n)) => PathInjective(d, kind, m, e, kind', n);
  }

  lemma DefinitionIsNoPath(m: string, d: string, kind: Kind, n: string)
    requires Identifier(m)
    ensures "definition " + m != Path(d, kind, n)
  {
    hide KindText;
    IdentifierHasNo(m);
    var s := "definition " + m;
    assert '.' !in "definition ";
    assert '.' !in s;
    assert Path(d, kind, n)[|d|] == '.';
  }

  lemma PathInjective(d: string, kind: Kind, m: string, e: string, kind': Kind, n: string)
    requires Identifier(d) && Identifier(m) && Identifier(e) && Identifier(n)
    requires Path(d, kind, m) == Path(e, kind', n)
    ensures d == e && kind == kind' && m == n
  {
    hide Identifier;
    IdentifierHasNo(d);
    IdentifierHasNo(e);
    SplitUnique(d, KindText(kind) + "." + m, e, KindText(kind') + "." + n, '.');
    KindTextsDiffer();
    SplitUnique(KindText(kind), m, KindText(kind'), n, '.');
  }

  lemma KindTextsDiffer()
    ensures KindText(Relation) != KindText(Permission)
    ensures forall kind :: '.' !in KindText(kind)
  {
    assert |RELATION| != |PERMISSION|;
    assert '.' !in RELATION && '.' !in PERMISSION;
  }

  lemma ConflictTextInjective(a: Conflict, b: Conflict)
    requires WellNamedItem(a.item) && WellNamedItem(b.item) && ConflictText(a) == ConflictText(b)
    ensures a == b
  {
    hide ItemText, WellNamedItem;
    SuffixesDiffer(ItemText(a.item), ItemText(b.item), a.Gone?, b.Gone?);
    ItemTextInjective(a.item, b.item);
  }

  lemma SuffixesDiffer(s: string, t: string, gone: bool, gone': bool)
    requires s + (if gone then ONLY_ACTIVE else CHANGED) == t + (if gone' then ONLY_ACTIVE else CHANGED)
    ensures s == t && gone == gone'
  {
    var u, v := s + (if gone then ONLY_ACTIVE else CHANGED), t + (if gone' then ONLY_ACTIVE else CHANGED);
    assert u[|u| - 1] == (if gone then 'a' else 'd');
    assert v[|v| - 1] == (if gone' then 'a' else 'd');
    assert s == u[..|s|] && t == v[..|t|];
  }

  lemma OnlyInWellNamed(a: Schema, b: Schema, item: Item)
    requires WellNamed(a) && WellNamed(b) && OnlyIn(a, b, item)
    ensures WellNamedItem(item)
  {
    hide Identifier;
  }

  lemma ConflictWellNamed(a: Schema, b: Schema, c: Conflict)
    requires WellNamed(a) && WellNamed(b) && IsConflict(a, b, c)
    ensures WellNamedItem(c.item)
  {
    hide Identifier;
  }

  /** For parsed schemas the lists have no duplicates and name exactly the
      additions and conflicts. */
  lemma DiffIsExact(current: Schema, desired: Schema, d: SchemaDiff)
    requires WellNamed(current) && WellNamed(desired) && IsDiff(current, desired, d)
    ensures NoDuplicates(d.additions) && NoDuplicates(d.conflicts)
    ensures forall item :: WellNamedItem(item) ==> (ItemText(item) in d.additions <==> OnlyIn(current, desired, item))
    ensures forall c: Conflict :: WellNamedItem(c.item) ==>
        (ConflictText(c) in d.conflicts <==> IsConflict(current, desired, c))
  {
    hide ItemText, ConflictText, Lists, OnlyIn, IsConflict, WellNamed, WellNamedItem;
    var onlyIn, isConflict := item => OnlyIn(current, desired, item), c => IsConflict(current, desired, c);
    forall x, y | onlyIn(x) && onlyIn(y) && ItemText(x) == ItemText(y)
      ensures x == y
    {
      OnlyInWellNamed(current, desired, x);
      OnlyInWellNamed(current, desired, y);
      ItemTextInjective(x, y);
    }
    forall x, y | isConflict(x) && isConflict(y) && ConflictText(x) == ConflictText(y)
      ensures x == y
    {
      ConflictWellNamed(current, desired, x);
      ConflictWellNamed(current, desired, y);
      ConflictTextInjective(x, y);
    }
    ListsExactly(d.additions, ItemText, onlyIn);
    ListsExactly(d.conflicts, ConflictText, isConflict);
    forall item | WellNamedItem(item) && ItemText(item) in d.additions
      ensures OnlyIn(current, desired, item)
    {
      var x :| onlyIn(x) && ItemText(x) == ItemText(item);
      OnlyInWellNamed(current, desired, x);
      ItemTextInjective(x, item);
    }
    forall c: Conflict | WellNamedItem(c.item) && ConflictText(c) in d.conflicts
      ensures IsConflict(current, desired, c)
    {
      var x :| isConflict(x) && ConflictText(x) == ConflictText(c);
      ConflictWellNamed(current, desired, x);
      ConflictTextInjective(x, c);
    }
  }

  // ---------- what empty lists mean ----------

  predicate SubMap(a: map<string, string>, b: map<string, string>) {
    forall k :: k in a ==> k in b && b[k] == a[k]
  }

  /** Every declaration of a is in b with the same expression. */
  ghost predicate Contained(a: Schema, b: Schema) {
    forall d :: d in a ==>
        d in b && SubMap(a[d].relations, b[d].relations) && SubMap(a[d].permissions, b[d].permissions)
  }

  lemma NoConflictIff(current: Schema, desired: Schema)
    ensures (forall c :: !IsConflict(current, desired, c)) <==> Contained(current, desired)
  {
    if forall c :: !IsConflict(current, desired, c) {
      forall d | d in current
        ensures d in desired && SubMap(current[d].relations, desired[d].relations)
            && SubMap(current[d].permissions, desired[d].permissions)
      {
        assert !IsConflict(current, desired, Gone(ADefinition(d)));
        forall k | k in current[d].relations
          ensures k in desired[d].relations && desired[d].relations[k] == current[d].relations[k]
        {
          assert !IsConflict(current, desired, Gone(AMember(d, Relation, k)));
          assert !IsConflict(current, desired, Changed(AMember(d, Relation, k)));
        }
        forall k | k in current[d].permissions
          ensures k in desired[d].permissions && desired[d].permissions[k] == current[d].permissions[k]
        {
          assert !IsConflict(current, desired, Gone(AMember(d, Permission, k)));
          assert !IsConflict(current, desired, Changed(AMember(d, Permission, k)));
        }
      }
    }
  }

  lemma ContainedReflexive(a: Schema)
    ensures Contained(a, a)
  {
  }

  lemma ContainedTransitive(a: Schema, b: Schema, c: Schema)
    requires Contained(a, b) && Contained(b, c)
    ensures Contained(a, c)
  {
  }

  lemma ContainedAntisymmetric(a: Schema, b: Schema)
    requires Contained(a, b) && Contained(b, a)
    ensures a == b
  {
    assert a.Keys == b.Keys;
    forall d | d in a
      ensures a[d] == b[d]
    {
      assert SubMap(a[d].relations, b[d].relations) && SubMap(b[d].relations, a[d].relations);
      assert a[d].relations == b[d].relations;
      assert a[d].permissions == b[d].permissions;
    }
  }

  lemma EmptyLists(current: Schema, desired: Schema, d: SchemaDiff)
    requires IsDiff(current, desired, d)
    ensures d.conflicts == [] <==> forall c :: !IsConflict(current, desired, c)
    ensures d.additions == [] <==> forall item :: !OnlyIn(current, desired, item)
  {
    hide ItemText, ConflictText, Lists, IsConflict, OnlyIn;
    var onlyIn, isConflict := item => OnlyIn(current, desired, item), c => IsConflict(current, desired, c);
    ListsEmptyIff(d.conflicts, ConflictText, isConflict);
    ListsEmptyIff(d.additions, ItemText, onlyIn);
    assert forall c :: isConflict(c) <==> IsConflict(current, desired, c);
    assert forall item :: onlyIn(item) <==> OnlyIn(current, desired, item);
  }

  /** No conflicts exactly when the current schema is contained in the desired
      one; no differences at all exactly when they are equal; an additive
      difference exactly when the containment is strict. */
  lemma DiffMeaning(current: Schema, desired: Schema, d: SchemaDiff)
    requires IsDiff(current, desired, d)
    ensures d.conflicts == [] <==> Contained(current, desired)
    ensures d.Identical() <==> current == desired
    ensures d.Additive() <==> Contained(current, desired) && current != desired
  {
    hide ItemText, ConflictText, Lists;
    ContainedReflexive(current);
    EmptyLists(current, desired, d);
    NoConflictIff(current, desired);
    if d.Identical() {
      NoConflictIff(desired, current);
      forall c
        ensures !IsConflict(desired, current, c)
      {
        SwapConflict(current, desired, c);
      }
      ContainedAntisymmetric(current, desired);
    }
  }

  /** Swapping the arguments turns each addition into a conflict about something
      that exists only in the active schema, and keeps the changed set. */
  lemma SwapConflict(current: Schema, desired: Schema, c: Conflict)
    ensures IsConflict(desired, current, c) <==>
      if c.Gone? then OnlyIn(current, desired, c.item) else IsConflict(current, desired, c)
  {
  }

  lemma SwappedDiff(current: Schema, desired: Schema, d: SchemaDiff, e: SchemaDiff, item: Item)
    requires WellNamed(current) && WellNamed(desired) && WellNamedItem(item)
    requires IsDiff(current, desired, d) && IsDiff(desired, current, e)
    ensures ItemText(item) in d.additions <==> ConflictText(Gone(item)) in e.conflicts
    ensures ItemText(item) in e.additions <==> ConflictText(Gone(item)) in d.conflicts
    ensures ConflictText(Changed(item)) in d.conflicts <==> ConflictText(Changed(item)) in e.conflicts
  {
    hide ItemText, ConflictText, IsDiff, OnlyIn, WellNamed, WellNamedItem;
    DiffIsExact(current, desired, d);
    DiffIsExact(desired, current, e);
    SwapConflict(current, desired, Gone(item));
    SwapConflict(desired, current, Gone(item));
    SwapConflict(current, desired, Changed(item));
  }
}
