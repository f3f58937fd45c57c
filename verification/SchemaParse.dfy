/** ParseSchema and parseDefinition. */
module SchemaParse {
  import opened Text
  import opened SchemaComments
  import opened SchemaScan

  datatype Definition = Definition(relations: map<string, string>, permissions: map<string, string>)

  /** A schema is its definitions by name. */
  type Schema = map<string, Definition>

  datatype ParseError =
    | DuplicateDefinition(name: string)
    | MissingClosingBrace(name: string)
    | DuplicateMember(name: string, member: string)

  datatype Result<+T> = Ok(value: T) | Err(error: ParseError)

  const EMPTY_DEFINITION := Definition(map[], map[])

  // ---------- parseDefinition ----------

  function AddMember(def: Definition, d: Decl): Definition {
    if d.kind == Relation then def.(relations := def.relations[d.name := d.expression])
    else def.(permissions := def.permissions[d.name := d.expression])
  }

  predicate Declares(def: Definition, member: string) {
    member in def.relations || member in def.permissions
  }

  function Members(name: string, ds: seq<Decl>): Result<Definition> {
    if ds == [] then Ok(EMPTY_DEFINITION)
    else
      var d := ds[|ds| - 1];
      match Members(name, ds[..|ds| - 1])
      case Err(e) => Err(e)
      case Ok(def) => if Declares(def, d.name) then Err(DuplicateMember(name, d.name)) else Ok(AddMember(def, d))
  }

  method ParseDefinition(name: string, body: string) returns (r: Result<Definition>)
    ensures r == Members(name, Decls(body, 0))
  {
    var definition := EMPTY_DEFINITION;
    var matches := Decls(body, 0);
    for i := 0 to |matches|
      invariant Members(name, matches[..i]) == Ok(definition)
    {
      var d := matches[i];
      assert matches[..i + 1][..i] == matches[..i];
      if d.name in definition.relations || d.name in definition.permissions {
        assert Members(name, matches[..i + 1]) == Err(DuplicateMember(name, d.name));
        FirstErrorStays(name, matches, i + 1);
        return Err(DuplicateMember(name, d.name));
      }
      definition := AddMember(definition, d);
    }
    assert matches[..|matches|] == matches;
    r := Ok(definition);
  }

  lemma {:induction false} FirstErrorStays(name: string, ds: seq<Decl>, i: nat)
    requires i <= |ds| && Members(name, ds[..i]).Err?
    ensures Members(name, ds) == Members(name, ds[..i])
    decreases |ds|
  {
    if i < |ds| {
      var n := |ds| - 1;
      assert ds[..n][..i] == ds[..i];
      FirstErrorStays(name, ds[..n], i);
    } else {
      assert ds[..i] == ds;
    }
  }

  predicate DistinctMembers(ds: seq<Decl>) {
    forall i, j :: 0 <= i < j < |ds| ==> ds[i].name != ds[j].name
  }

  /** The declaration at j is the first that repeats an earlier name. */
  predicate FirstRepeated(ds: seq<Decl>, j: nat)
    requires j < |ds|
  {
    DistinctMembers(ds[..j]) && !DistinctMembers(ds[..j + 1])
  }

  /** The definition holds exactly the declarations, by kind. */
  ghost predicate Holds(def: Definition, ds: seq<Decl>) {
    && (forall m, e :: m in def.relations && def.relations[m] == e <==> Decl(Relation, m, e) in ds)
    && (forall m, e :: m in def.permissions && def.permissions[m] == e <==> Decl(Permission, m, e) in ds)
  }

  /** A body is rejected exactly when it declares a member twice, in either kind;
      otherwise the definition is its set of declarations. */
  lemma {:induction false} MembersExact(name: string, ds: seq<Decl>)
    ensures Members(name, ds).Ok? <==> DistinctMembers(ds)
    ensures Members(name, ds).Ok? ==> Holds(Members(name, ds).value, ds)
    ensures Members(name, ds).Err? ==> exists j :: 0 <= j < |ds| && FirstRepeated(ds, j)
                                                   && Members(name, ds).error == DuplicateMember(name, ds[j].name)
    decreases |ds|
  {
    if ds != [] {
      var n := |ds| - 1;
      var d := ds[n];
      MembersExact(name, ds[..n]);
      assert ds == ds[..n] + [d];
      if DistinctMembers(ds[..n]) {
        var def := Members(name, ds[..n]).value;
        DeclaresIff(def, ds[..n], d.name);
        assert DistinctMembers(ds) <==> !Declares(def, d.name);
        if !Declares(def, d.name) {
          AddMemberHolds(def, ds[..n], d);
        } else {
          assert ds[..n + 1] == ds;
          assert FirstRepeated(ds, n);
        }
      } else {
        var j :| 0 <= j < n && FirstRepeated(ds[..n], j)
            && Members(name, ds[..n]).error == DuplicateMember(name, ds[..n][j].name);
        assert ds[..n][..j] == ds[..j] && ds[..n][..j + 1] == ds[..j + 1];
        assert FirstRepeated(ds, j);
      }
    }
  }

  lemma DeclaresIff(def: Definition, ds: seq<Decl>, member: string)
    requires Holds(def, ds)
    ensures Declares(def, member) <==> exists i :: 0 <= i < |ds| && ds[i].name == member
  {
    if member in def.relations {
      assert Decl(Relation, member, def.relations[member]) in ds;
    }
    if member in def.permissions {
      assert Decl(Permission, member, def.permissions[member]) in ds;
    }
    if i :| 0 <= i < |ds| && ds[i].name == member {
      assert ds[i] == Decl(ds[i].kind, member, ds[i].expression) && ds[i] in ds;
      if ds[i].kind == Relation {
        assert Decl(Relation, member, ds[i].expression) in ds;
      } else {
        assert Decl(Permission, member, ds[i].expression) in ds;
      }
    }
  }

  lemma AddMemberHolds(def: Definition, ds: seq<Decl>, d: Decl)
    requires Holds(def, ds) && !Declares(def, d.name)
    ensures Holds(AddMember(def, d), ds + [d])
  {
    var next := AddMember(def, d);
    forall m, e
      ensures m in next.relations && next.relations[m] == e <==> Decl(Relation, m, e) in ds + [d]
    {
      assert Decl(Relation, m, e) in ds + [d] <==> Decl(Relation, m, e) in ds || Decl(Relation, m, e) == d;
      if m == d.name { assert Decl(Relation, m, e) !in ds; }
    }
    forall m, e
      ensures m in next.permissions && next.permissions[m] == e <==> Decl(Permission, m, e) in ds + [d]
    {
      assert Decl(Permission, m, e) in ds + [d] <==> Decl(Permission, m, e) in ds || Decl(Permission, m, e) == d;
      if m == d.name { assert Decl(Permission, m, e) !in ds; }
    }
  }

  // ---------- ParseSchema ----------

  /** The leftmost match in t[offset..], searched as a text of its own. */
  function HeadFrom(t: string, offset: nat): (h: Option<Head>)
    requires offset <= |t|
    ensures h.Some? ==> offset <= h.value.start < h.value.nameStart < h.value.nameEnd <= h.value.open < |t|
    ensures h.Some? ==> t[h.value.open] == '{'
  {
    Shift(FindHead(t[offset..], 0), offset)
  }

  function ParseFrom(t: string, offset: nat, found: Schema): Result<Schema>
    requires offset <= |t|
    decreases |t| - offset
  {
    match HeadFrom(t, offset)
    case None => Ok(found)
    case Some(h) =>
      var name := t[h.nameStart..h.nameEnd];
      if name in found then Err(DuplicateDefinition(name))
      else
        match CloseOf(t, h.open)
        case None => Err(MissingClosingBrace(name))
        case Some(close) =>
          CloseIsAfter(t, h.open, close);
          match Members(name, Decls(t[h.open + 1..close], 0))
          case Err(e) => Err(e)
          case Ok(def) => ParseFrom(t, close + 1, found[name := def])
  }

  lemma CloseIsAfter(t: string, open: nat, close: nat)
    requires open < |t| && t[open] == '{' && CloseOf(t, open) == Some(close)
    ensures open < close < |t| && t[close] == '}'
  {
    CloseExact(t, open);
  }

  ghost function Parse(text: string): Result<Schema> {
    ParseFrom(Strip(text, 0), 0, map[])
  }

  method ParseSchema(text: string) returns (r: Result<Schema>)
    ensures r == Parse(text)
  {
    hide HeadFrom, CloseOf, Members, Decls, Strip;
    var clean := StripSchemaComments(text);
    var schema: Schema := map[];
    var offset := 0;
    while offset < |clean|
      invariant offset <= |clean|
      invariant ParseFrom(clean, offset, schema) == Parse(text)
      decreases |clean| - offset
    {
      var h := HeadFrom(clean, offset);
      if h == None {
        return Ok(schema);
      }
      var name := clean[h.value.nameStart..h.value.nameEnd];
      if name in schema {
        return Err(DuplicateDefinition(name));
      }
      var open := h.value.open;
      var close := MatchingBrace(clean, open);
      if close == None {
        return Err(MissingClosingBrace(name));
      }
      CloseIsAfter(clean, open, close.value);
      var definition := ParseDefinition(name, clean[open + 1..close.value]);
      if definition.Err? {
        return Err(definition.error);
      }
      schema := schema[name := definition.value];
      offset := close.value + 1;
    }
    NothingLeft(clean, schema);
    r := Ok(schema);
  }

  lemma NothingLeft(t: string, found: Schema)
    ensures ParseFrom(t, |t|, found) == Ok(found)
  {
    assert t[|t|..] == "";
    assert FindHead("", 0) == None;
  }
}
