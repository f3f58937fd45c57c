/** Authorization relationships ("tuples"), the filters that select them, and
    duplicate removal by string key. */
module Relationships {
  import opened Text
  import opened Sequences

  datatype ObjectRef = ObjectRef(typ: string, id: string)
  datatype SubjectRef = SubjectRef(typ: string, id: string, relation: string)
  datatype Relationship = Relationship(resource: ObjectRef, relation: string, subject: SubjectRef)

  /** An empty field is a wildcard. */
  datatype Filter = Filter(resourceType: string, resourceID: string, relation: string,
                           subjectType: string, subjectID: string, subjectRel: string)

  type Store = set<Relationship>

  predicate Zero(r: Relationship) {
    || Blank(r.resource.typ) || Blank(r.resource.id)
    || Blank(r.subject.typ) || Blank(r.subject.id)
    || Blank(r.relation)
  }

  predicate Allows(pattern: string, value: string) {
    pattern == "" || pattern == value
  }

  predicate Matches(f: Filter, r: Relationship) {
    && Allows(f.resourceType, r.resource.typ)
    && Allows(f.resourceID, r.resource.id)
    && Allows(f.relation, r.relation)
    && Allows(f.subjectType, r.subject.typ)
    && Allows(f.subjectID, r.subject.id)
    && Allows(f.subjectRel, r.subject.relation)
  }

  /** The filter that names all six fields of a tuple. With an empty subject
      relation it still selects every subject-relation variant of the tuple. */
  function Naming(r: Relationship): Filter {
    Filter(r.resource.typ, r.resource.id, r.relation, r.subject.typ, r.subject.id, r.subject.relation)
  }

  predicate Hit(fs: seq<Filter>, r: Relationship) {
    exists f :: f in fs && Matches(f, r)
  }

  function Remaining(s: Store, fs: seq<Filter>): Store {
    set r | r in s && !Hit(fs, r)
  }

  function Elements(rels: seq<Relationship>): Store {
    set r | r in rels
  }

  /** What the tuple store accepts: references that are not zero, trimmed ids,
      and no separator inside a type, an id or a relation. */
  predicate Canonical(r: Relationship) {
    && !Zero(r)
    && Trimmed(r.resource.id) && Trimmed(r.subject.id)
    && Separable(r)
  }

  predicate Separable(r: Relationship) {
    && ':' !in r.resource.typ && ':' !in r.subject.typ
    && '#' !in r.resource.id && '#' !in r.subject.id
    && '@' !in r.relation
  }

  function Key(r: Relationship): string {
    r.resource.typ + ":" + (r.resource.id + "#" + (r.relation + "@" +
    (r.subject.typ + ":" + (r.subject.id + "#" + r.subject.relation))))
  }

  /** The key tells separable tuples apart. */
  lemma KeyInjective(a: Relationship, b: Relationship)
    requires Separable(a) && Separable(b)
    requires Key(a) == Key(b)
    ensures a == b
  {
    var a5 := a.subject.id + "#" + a.subject.relation;
    var b5 := b.subject.id + "#" + b.subject.relation;
    var a4 := a.subject.typ + ":" + a5;
    var b4 := b.subject.typ + ":" + b5;
    var a3 := a.relation + "@" + a4;
    var b3 := b.relation + "@" + b4;
    var a2 := a.resource.id + "#" + a3;
    var b2 := b.resource.id + "#" + b3;
    SplitUnique(a.resource.typ, a2, b.resource.typ, b2, ':');
    SplitUnique(a.resource.id, a3, b.resource.id, b3, '#');
    SplitUnique(a.relation, a4, b.relation, b4, '@');
    SplitUnique(a.subject.typ, a5, b.subject.typ, b5, ':');
    SplitUnique(a.subject.id, a.subject.relation, b.subject.id, b.subject.relation, '#');
  }

  /** Without that restriction it does not: an id may contain a separator. */
  lemma KeyCollision() returns (a: Relationship, b: Relationship)
    ensures a != b && Key(a) == Key(b) && !Zero(a) && !Zero(b)
  {
    a := Relationship(ObjectRef("g", "i"), "r", SubjectRef("g", "j#r@u:u", ""));
    b := Relationship(ObjectRef("g", "i#r@g:j"), "r", SubjectRef("u", "u", ""));
    assert |a.resource.id| != |b.resource.id|;
  }

  // ---------- dedupeRelationships ----------

  ghost function Dedupe(input: seq<Relationship>): seq<Relationship> {
    KeepFirst(input, Zero, Key)
  }

  method DedupeRelationships(input: seq<Relationship>) returns (out: seq<Relationship>)
    ensures out == Dedupe(input)
  {
    var seen: set<string> := {};
    out := [];
    for i := 0 to |input|
      invariant out == KeepFirst(input[..i], Zero, Key)
      invariant seen == KeysSeen(input[..i], Zero, Key)
    {
      var rel := input[i];
      KeepFirstStep(input, i, Zero, Key);
      if Zero(rel) { continue; }
      var key := Key(rel);
      if key in seen { continue; }
      seen := seen + {key};
      out := out + [rel];
    }
    assert input[..|input|] == input;
  }

  /** The output lists, in input order and each once, the input positions that
      hold the first non-zero tuple with their key. */
  lemma DedupeOrder(input: seq<Relationship>) returns (at: seq<nat>)
    ensures |at| == |Dedupe(input)|
    ensures forall k :: 0 <= k < |at| ==> at[k] < |input| && Dedupe(input)[k] == input[at[k]]
    ensures forall k, l :: 0 <= k < l < |at| ==> at[k] < at[l]
    ensures forall i: nat :: i in at <==>
      i < |input| && !Zero(input[i]) && forall j :: 0 <= j < i && !Zero(input[j]) ==> Key(input[j]) != Key(input[i])
  {
    at := KeepFirstOrder(input, Zero, Key);
  }

  function NonZero(input: seq<Relationship>): Store {
    set r | r in input && !Zero(r)
  }

  /** Duplicate removal loses no tuple exactly when the keys of the non-zero
      input tuples tell them apart; the output never repeats a key. */
  lemma DedupeExact(input: seq<Relationship>)
    ensures Elements(Dedupe(input)) <= NonZero(input)
    ensures forall k, l :: 0 <= k < l < |Dedupe(input)| ==> Key(Dedupe(input)[k]) != Key(Dedupe(input)[l])
    ensures Elements(Dedupe(input)) == NonZero(input)
      <==> forall a, b :: a in NonZero(input) && b in NonZero(input) && Key(a) == Key(b) ==> a == b
  {
    KeepFirstSound(input, Zero, Key);
    KeepFirstExact(input, Zero, Key);
    assert NonZero(input) == Unskipped(input, Zero);
  }

  /** On tuples whose parts hold no separator the output is exactly the set of
      non-zero input tuples, each once. */
  lemma DedupeSeparable(input: seq<Relationship>)
    requires forall r :: r in input && !Zero(r) ==> Separable(r)
    ensures Elements(Dedupe(input)) == NonZero(input)
    ensures forall k, l :: 0 <= k < l < |Dedupe(input)| ==> Dedupe(input)[k] != Dedupe(input)[l]
  {
    forall a, b | a in NonZero(input) && b in NonZero(input) && Key(a) == Key(b)
      ensures a == b
    {
      KeyInjective(a, b);
    }
    DedupeExact(input);
  }

  lemma DedupeIdempotent(input: seq<Relationship>)
    ensures Dedupe(Dedupe(input)) == Dedupe(input)
  {
    KeepFirstSound(input, Zero, Key);
    KeepFirstStable(Dedupe(input), Zero, Key);
  }
}
