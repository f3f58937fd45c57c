/** What ParseSchema accepts, said without its loop: the definition blocks of the
    text, where they lie, and exactly which texts are rejected. */
module SchemaBlocks {
  import opened Text
  import opened SchemaComments
  import opened SchemaScan
  import opened SchemaParse

  datatype Block = Block(name: string, start: nat, open: nat, close: nat)

  /** The closed blocks met from an offset on, and the name of the first block
      that is never closed, if there is one. */
  datatype Scan = Scan(blocks: seq<Block>, unclosed: Option<string>)

  datatype Next = NoMore | Unclosed(name: string) | Found(block: Block)

  function NextBlock(t: string, offset: nat): (next: Next)
    requires offset <= |t|
    ensures next.Found? ==> offset <= next.block.start < next.block.open < next.block.close < |t|
  {
    match FindHead(t, offset)
    case None => NoMore
    case Some(h) =>
      var name := t[h.nameStart..h.nameEnd];
      match CloseOf(t, h.open)
      case None => Unclosed(name)
      case Some(close) =>
        CloseIsAfter(t, h.open, close);
        Found(Block(name, h.start, h.open, close))
  }

  function Blocks(t: string, offset: nat): Scan
    requires offset <= |t|
    decreases |t| - offset
  {
    match NextBlock(t, offset)
    case NoMore => Scan([], None)
    case Unclosed(name) => Scan([], Some(name))
    case Found(b) =>
      var rest := Blocks(t, b.close + 1);
      Scan([b] + rest.blocks, rest.unclosed)
  }

  /** The block is a whole match of the definition pattern with its least closing brace. */
  ghost predicate IsBlock(t: string, b: Block) {
    && b.start < b.open < b.close < |t|
    && HeadAt(t, b.start).Some? && HeadAt(t, b.start).value.open == b.open
    && b.name == t[HeadAt(t, b.start).value.nameStart..HeadAt(t, b.start).value.nameEnd]
    && Identifier(b.name)
    && t[b.open] == '{' && ClosesAt(t, b.open, b.close)
  }

  /** No match of the pattern starts in t[from..upto]. */
  ghost predicate NoHeadBetween(t: string, from: nat, upto: nat) {
    forall k :: from <= k < upto && k <= |t| ==> HeadAt(t, k) == None
  }

  lemma NextBlockIs(t: string, offset: nat)
    requires offset <= |t|
    ensures match NextBlock(t, offset)
      case NoMore => NoHeadBetween(t, offset, |t| + 1)
      case Unclosed(_) => true
      case Found(b) => IsBlock(t, b) && NoHeadBetween(t, offset, b.start)
  {
    hide HeadAt, CloseOf, ClosesAt, Identifier;
    var found := FindHead(t, offset);
    if found.Some? {
      CloseExact(t, found.value.open);
    }
  }

  /** From an offset on: each block is the first match not yet passed, the search
      resumes behind its closing brace, and a complete scan ends with no match left. */
  ghost predicate Chain(t: string, offset: nat, scan: Scan)
    decreases |scan.blocks|
  {
    if scan.blocks == [] then scan.unclosed == None ==> NoHeadBetween(t, offset, |t| + 1)
    else
      var b := scan.blocks[0];
      && IsBlock(t, b) && offset <= b.start && NoHeadBetween(t, offset, b.start)
      && Chain(t, b.close + 1, Scan(scan.blocks[1..], scan.unclosed))
  }

  lemma {:induction false} BlocksChain(t: string, offset: nat)
    requires offset <= |t|
    ensures Chain(t, offset, Blocks(t, offset))
    decreases |t| - offset
  {
    hide NextBlock, IsBlock, NoHeadBetween;
    NextBlockIs(t, offset);
    var next := NextBlock(t, offset);
    if next.Found? {
      var rest := Blocks(t, next.block.close + 1);
      BlocksChain(t, next.block.close + 1);
      assert ([next.block] + rest.blocks)[1..] == rest.blocks;
    }
  }

  lemma {:induction false} ChainOrder(t: string, offset: nat, scan: Scan, i: nat)
    requires Chain(t, offset, scan) && i < |scan.blocks|
    ensures IsBlock(t, scan.blocks[i]) && offset <= scan.blocks[i].start
    ensures forall j :: i < j < |scan.blocks| ==> scan.blocks[i].close < scan.blocks[j].start
    decreases i
  {
    hide NoHeadBetween, HeadAt, ClosesAt, Identifier;
    var b, rest := scan.blocks[0], Scan(scan.blocks[1..], scan.unclosed);
    if i > 0 {
      ChainOrder(t, b.close + 1, rest, i - 1);
    } else {
      forall j | 0 < j < |scan.blocks|
        ensures b.close < scan.blocks[j].start
      {
        ChainStart(t, b.close + 1, rest, j - 1);
      }
    }
  }

  lemma {:induction false} ChainStart(t: string, offset: nat, scan: Scan, i: nat)
    requires Chain(t, offset, scan) && i < |scan.blocks|
    ensures offset <= scan.blocks[i].start
    decreases i
  {
    hide NoHeadBetween, HeadAt, ClosesAt, Identifier;
    if i > 0 {
      ChainStart(t, scan.blocks[0].close + 1, Scan(scan.blocks[1..], scan.unclosed), i - 1);
    }
  }

  /** The definitions found are whole matches with their least closing brace; they
      are disjoint, in order, and nothing between or after them matches. */
  lemma BlocksShape(t: string)
    ensures var scan := Blocks(t, 0);
      && Chain(t, 0, scan)
      && forall i, j :: 0 <= i <= j < |scan.blocks| ==>
           IsBlock(t, scan.blocks[i]) && (i < j ==> scan.blocks[i].close < scan.blocks[j].start)
  {
    hide Chain, IsBlock, Blocks;
    var scan := Blocks(t, 0);
    BlocksChain(t, 0);
    forall i, j | 0 <= i <= j < |scan.blocks|
      ensures IsBlock(t, scan.blocks[i]) && (i < j ==> scan.blocks[i].close < scan.blocks[j].start)
    {
      ChainOrder(t, 0, scan, i);
    }
  }

  /** Scanning resumes after any block as if the text before it were not there. */
  lemma {:induction false} SuffixScan(t: string, offset: nat, k: nat)
    requires offset <= |t| && k < |Blocks(t, offset).blocks|
    ensures var scan := Blocks(t, offset);
      && scan.blocks[k].close < |t|
      && Blocks(t, scan.blocks[k].close + 1) == Scan(scan.blocks[k + 1..], scan.unclosed)
    decreases k
  {
    hide NextBlock;
    var b := NextBlock(t, offset).block;
    var rest := Blocks(t, b.close + 1);
    var bs := Blocks(t, offset).blocks;
    assert bs == [b] + rest.blocks;
    if k == 0 {
      assert bs[1..] == rest.blocks;
    } else {
      SuffixScan(t, b.close + 1, k - 1);
      assert bs[k] == rest.blocks[k - 1] && bs[k + 1..] == rest.blocks[k..];
    }
  }

  function BodyOf(t: string, b: Block): string
    requires b.open < b.close <= |t|
  {
    t[b.open + 1..b.close]
  }

  ghost predicate DistinctNames(bs: seq<Block>) {
    forall i, j :: 0 <= i < j < |bs| ==> bs[i].name != bs[j].name
  }

  ghost predicate GoodBodies(t: string, bs: seq<Block>) {
    forall i :: 0 <= i < |bs| ==> bs[i].open < bs[i].close <= |t| && DistinctMembers(Decls(BodyOf(t, bs[i]), 0))
  }

  ghost predicate NoneIn(bs: seq<Block>, found: Schema) {
    forall i :: 0 <= i < |bs| ==> bs[i].name !in found
  }

  ghost predicate BlockIn(t: string, b: Block, schema: Schema) {
    b.name in schema && b.open < b.close <= |t| && Holds(schema[b.name], Decls(BodyOf(t, b), 0))
  }

  /** The schema made of the blocks. */
  ghost predicate SchemaOf(t: string, bs: seq<Block>, schema: Schema) {
    && (forall name :: name in schema <==> Named(bs, name))
    && (forall i :: 0 <= i < |bs| ==> BlockIn(t, bs[i], schema))
  }

  ghost predicate Extends(t: string, bs: seq<Block>, found: Schema, schema: Schema) {
    && (forall name :: name in schema <==> name in found || Named(bs, name))
    && (forall name :: name in found ==> name in schema && schema[name] == found[name])
    && (forall i :: 0 <= i < |bs| ==> BlockIn(t, bs[i], schema))
  }

  ghost predicate Acceptable(t: string, scan: Scan, found: Schema) {
    scan.unclosed == None && NoneIn(scan.blocks, found) && DistinctNames(scan.blocks) && GoodBodies(t, scan.blocks)
  }

  lemma HeadOfSuffix(t: string, offset: nat)
    requires offset <= |t| && WordBoundary(t, offset)
    ensures HeadFrom(t, offset) == FindHead(t, offset)
  {
    FindHeadShift(t, offset, offset);
  }

  lemma ConsAcceptable(t: string, b: Block, rest: Scan, found: Schema, def: Definition)
    requires b.open < b.close <= |t|
    ensures Acceptable(t, Scan([b] + rest.blocks, rest.unclosed), found)
      <==> b.name !in found && DistinctMembers(Decls(BodyOf(t, b), 0)) && Acceptable(t, rest, found[b.name := def])
  {
    hide Decls, DistinctMembers, BodyOf;
    var bs := [b] + rest.blocks;
    assert forall i :: 0 <= i < |rest.blocks| ==> bs[i + 1] == rest.blocks[i];
    if Acceptable(t, Scan(bs, rest.unclosed), found) {
      assert bs[0] == b;
      forall i, j | 0 <= i < j < |rest.blocks|
        ensures rest.blocks[i].name != rest.blocks[j].name
      {
        assert bs[i + 1].name != bs[j + 1].name;
      }
      forall i | 0 <= i < |rest.blocks|
        ensures rest.blocks[i].name !in found[b.name := def]
        ensures rest.blocks[i].open < rest.blocks[i].close <= |t|
            && DistinctMembers(Decls(BodyOf(t, rest.blocks[i]), 0))
      {
        assert bs[0].name != bs[i + 1].name && bs[i + 1].name !in found;
      }
    }
  }

  predicate Named(bs: seq<Block>, name: string) {
    exists i :: 0 <= i < |bs| && bs[i].name == name
  }

  lemma NamedCons(b: Block, bs: seq<Block>, name: string)
    ensures Named([b] + bs, name) <==> name == b.name || Named(bs, name)
  {
    var all := [b] + bs;
    assert all[0] == b;
    if i :| 0 <= i < |bs| && bs[i].name == name {
      assert all[i + 1].name == name;
    }
    if i :| 0 <= i < |all| && all[i].name == name {
      assert i > 0 ==> bs[i - 1].name == name;
    }
  }

  lemma ConsExtends(t: string, b: Block, bs: seq<Block>, found: Schema, def: Definition, schema: Schema)
    requires b.open < b.close <= |t| && b.name !in found && Holds(def, Decls(BodyOf(t, b), 0))
    requires Extends(t, bs, found[b.name := def], schema)
    ensures Extends(t, [b] + bs, found, schema)
  {
    hide Decls, Holds, BodyOf, Named;
    var all := [b] + bs;
    assert b.name in found[b.name := def] && schema[b.name] == def;
    assert BlockIn(t, b, schema);
    forall name
      ensures name in schema <==> name in found || Named(all, name)
    {
      NamedCons(b, bs, name);
    }
    forall i | 0 <= i < |all|
      ensures BlockIn(t, all[i], schema)
    {
      assert i > 0 ==> all[i] == bs[i - 1];
    }
    forall name | name in found
      ensures name in schema && schema[name] == found[name]
    {
      assert name in found[b.name := def];
    }
  }

  /** One round of the parser's loop, on the whole text. */
  lemma ParseFromStep(t: string, offset: nat, found: Schema)
    requires offset <= |t| && WordBoundary(t, offset)
    ensures ParseFrom(t, offset, found) ==
      match NextBlock(t, offset)
      case NoMore => Ok(found)
      case Unclosed(name) => Err(if name in found then DuplicateDefinition(name) else MissingClosingBrace(name))
      case Found(b) =>
        if b.name in found then Err(DuplicateDefinition(b.name))
        else
          match Members(b.name, Decls(BodyOf(t, b), 0))
          case Err(e) => Err(e)
          case Ok(def) => ParseFrom(t, b.close + 1, found[b.name := def])
  {
    hide FindHead, HeadFrom, CloseOf, Decls, Members;
    HeadOfSuffix(t, offset);
  }

  lemma {:induction false} ParseFromExact(t: string, offset: nat, found: Schema)
    requires offset <= |t| && WordBoundary(t, offset)
    ensures ParseFrom(t, offset, found).Ok? <==> Acceptable(t, Blocks(t, offset), found)
    ensures ParseFrom(t, offset, found).Ok? ==>
      Extends(t, Blocks(t, offset).blocks, found, ParseFrom(t, offset, found).value)
    decreases |t| - offset
  {
    hide NextBlock, ParseFrom, Decls, DistinctMembers, Members, Holds, Acceptable, Extends;
    ParseFromStep(t, offset, found);
    match NextBlock(t, offset)
    case NoMore => NothingFound(t, found);
    case Unclosed(name) => UnclosedFails(t, name, found);
    case Found(b) =>
      var rest := Blocks(t, b.close + 1);
      var members := Members(b.name, Decls(BodyOf(t, b), 0));
      MembersExact(b.name, Decls(BodyOf(t, b), 0));
      var def := if members.Ok? then members.value else EMPTY_DEFINITION;
      ConsAcceptable(t, b, rest, found, def);
      FoundBoundary(t, offset);
      ParseFromExact(t, b.close + 1, found[b.name := def]);
      if ParseFrom(t, offset, found).Ok? {
        ConsExtends(t, b, rest.blocks, found, def, ParseFrom(t, offset, found).value);
      }
  }

  /** A block ends with a brace, so the search after it starts at a word boundary. */
  lemma FoundBoundary(t: string, offset: nat)
    requires offset <= |t| && NextBlock(t, offset).Found?
    ensures WordBoundary(t, NextBlock(t, offset).block.close + 1)
  {
    hide HeadAt, FindHead;
    CloseExact(t, FindHead(t, offset).value.open);
  }

  lemma NothingFound(t: string, found: Schema)
    ensures Acceptable(t, Scan([], None), found) && Extends(t, [], found, found)
  {
  }

  lemma UnclosedFails(t: string, name: string, found: Schema)
    ensures !Acceptable(t, Scan([], Some(name)), found)
  {
  }

  /** A text is rejected exactly when, after comments are stripped, some block is
      never closed, two blocks have the same name, or a body declares a member
      twice; otherwise the schema is exactly what the blocks declare. */
  lemma ParseExact(text: string)
    ensures var t, scan := Strip(text, 0), Blocks(Strip(text, 0), 0);
      && (Parse(text).Ok? <==> scan.unclosed == None && DistinctNames(scan.blocks) && GoodBodies(t, scan.blocks))
      && (Parse(text).Ok? ==> SchemaOf(t, scan.blocks, Parse(text).value))
  {
    ParseFromExact(Strip(text, 0), 0, map[]);
  }

  // ---------- names are identifiers ----------

  ghost predicate WellNamed(schema: Schema) {
    forall name :: name in schema ==> Identifier(name) && WellNamedDefinition(schema[name])
  }

  ghost predicate WellNamedDefinition(def: Definition) {
    (forall m :: m in def.relations ==> Identifier(m)) && (forall m :: m in def.permissions ==> Identifier(m))
  }

  lemma HoldsWellNamed(def: Definition, ds: seq<Decl>)
    requires Holds(def, ds) && forall d :: d in ds ==> Identifier(d.name)
    ensures WellNamedDefinition(def)
  {
    hide Identifier;
    forall m | m in def.relations
      ensures Identifier(m)
    {
      assert Decl(Relation, m, def.relations[m]) in ds;
    }
    forall m | m in def.permissions
      ensures Identifier(m)
    {
      assert Decl(Permission, m, def.permissions[m]) in ds;
    }
  }

  /** Every name in a parsed schema is an identifier. */
  lemma ParsedIsWellNamed(text: string)
    requires Parse(text).Ok?
    ensures WellNamed(Parse(text).value)
  {
    hide Parse, Holds, Identifier, Blocks, Strip, Decls, WellNamedDefinition, HeadAt, ClosesAt, GoodBodies,
        DistinctNames;
    var t, schema := Strip(text, 0), Parse(text).value;
    ParseExact(text);
    BlocksShape(t);
    var bs := Blocks(t, 0).blocks;
    forall name | name in schema
      ensures Identifier(name) && WellNamedDefinition(schema[name])
    {
      assert Named(bs, name);
      var i :| 0 <= i < |bs| && bs[i].name == name;
      assert IsBlock(t, bs[i]) && BlockIn(t, bs[i], schema);
      HoldsWellNamed(schema[name], Decls(BodyOf(t, bs[i]), 0));
    }
  }
}
