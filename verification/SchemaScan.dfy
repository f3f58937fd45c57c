/** The two patterns of the schema parser, written as scanners with the priorities
    of the leftmost-first regular expressions they stand for, and brace matching. */
module SchemaScan {
  import opened Text

  // ---------- character classes ----------

  /** \s */
  predicate Ws(c: char) {
    c == '\t' || c == '\n' || c == '\U{000C}' || c == '\r' || c == ' '
  }

  predicate IdentStart(c: char) {
    'A' <= c <= 'Z' || 'a' <= c <= 'z' || c == '_'
  }

  /** \w */
  predicate Word(c: char) {
    IdentStart(c) || '0' <= c <= '9'
  }

  predicate Identifier(s: string) {
    s != "" && IdentStart(s[0]) && forall i :: 0 <= i < |s| ==> Word(s[i])
  }

  function SkipWs(t: string, i: nat): (j: nat)
    requires i <= |t|
    ensures i <= j <= |t| && (j < |t| ==> !Ws(t[j]))
    ensures forall k :: i <= k < j ==> Ws(t[k])
    decreases |t| - i
  {
    if i < |t| && Ws(t[i]) then SkipWs(t, i + 1) else i
  }

  function SkipWord(t: string, i: nat): (j: nat)
    requires i <= |t|
    ensures i <= j <= |t| && (j < |t| ==> !Word(t[j]))
    ensures forall k :: i <= k < j ==> Word(t[k])
    ensures i < |t| && Word(t[i]) ==> i < j
    decreases |t| - i
  {
    if i < |t| && Word(t[i]) then SkipWord(t, i + 1) else i
  }

  predicate LiteralAt(t: string, i: nat, literal: string) {
    i + |literal| <= |t| && t[i..i + |literal|] == literal
  }

  // ---------- \bdefinition\s+([A-Za-z_][A-Za-z0-9_]*)\s*\{ ----------

  datatype Head = Head(start: nat, nameStart: nat, nameEnd: nat, open: nat)

  const DEFINITION := "definition"

  predicate WordBoundary(t: string, i: nat)
    requires i <= |t|
  {
    i == 0 || !Word(t[i - 1])
  }

  /** The match after the keyword, which ends at a. */
  function HeadTail(t: string, i: nat, a: nat): (h: Option<Head>)
    requires i < a <= |t|
    ensures h.Some? ==> h.value.start == i < h.value.nameStart < h.value.nameEnd <= h.value.open < |t|
    ensures h.Some? ==> t[h.value.open] == '{' && Identifier(t[h.value.nameStart..h.value.nameEnd])
  {
    var b := SkipWs(t, a);
    if b == a || b == |t| || !IdentStart(t[b]) then None
    else
      var c := SkipWord(t, b);
      var d := SkipWs(t, c);
      if d < |t| && t[d] == '{' then Some(Head(i, b, c, d)) else None
  }

  function HeadAt(t: string, i: nat): (h: Option<Head>)
    requires i <= |t|
    ensures h.Some? ==> h.value.start == i < h.value.nameStart < h.value.nameEnd <= h.value.open < |t|
    ensures h.Some? ==> t[h.value.open] == '{' && Identifier(t[h.value.nameStart..h.value.nameEnd])
  {
    if !LiteralAt(t, i, DEFINITION) || !WordBoundary(t, i) then None
    else HeadTail(t, i, i + |DEFINITION|)
  }

  /** The leftmost match at or after i. */
  function FindHead(t: string, i: nat): (h: Option<Head>)
    requires i <= |t|
    ensures h.Some? ==> i <= h.value.start <= |t| && HeadAt(t, h.value.start) == h
    ensures h.Some? ==> forall k :: i <= k < h.value.start ==> HeadAt(t, k) == None
    ensures h == None ==> forall k :: i <= k <= |t| ==> HeadAt(t, k) == None
    decreases |t| - i
  {
    if HeadAt(t, i).Some? then HeadAt(t, i)
    else if i < |t| then FindHead(t, i + 1)
    else None
  }

  function Shift(h: Option<Head>, off: nat): Option<Head> {
    match h
    case None => None
    case Some(x) => Some(Head(x.start + off, x.nameStart + off, x.nameEnd + off, x.open + off))
  }

  lemma {:induction false} SkipWsShift(t: string, off: nat, i: nat)
    requires off <= i <= |t|
    ensures SkipWs(t[off..], i - off) + off == SkipWs(t, i)
    decreases |t| - i
  {
    if i < |t| && Ws(t[i]) {
      SkipWsShift(t, off, i + 1);
    }
  }

  lemma {:induction false} SkipWordShift(t: string, off: nat, i: nat)
    requires off <= i <= |t|
    ensures SkipWord(t[off..], i - off) + off == SkipWord(t, i)
    decreases |t| - i
  {
    if i < |t| && Word(t[i]) {
      SkipWordShift(t, off, i + 1);
    }
  }

  lemma HeadTailShift(t: string, off: nat, i: nat, a: nat)
    requires off <= i < a <= |t|
    ensures Shift(HeadTail(t[off..], i - off, a - off), off) == HeadTail(t, i, a)
  {
    hide SkipWs, SkipWord, Identifier, IdentStart;
    var s := t[off..];
    var b := SkipWs(t, a);
    SkipWsShift(t, off, a);
    assert SkipWs(s, a - off) == b - off;
    if b < |t| {
      assert s[b - off] == t[b];
      var c := SkipWord(t, b);
      SkipWordShift(t, off, b);
      assert SkipWord(s, b - off) == c - off;
      var d := SkipWs(t, c);
      SkipWsShift(t, off, c);
      assert SkipWs(s, c - off) == d - off;
      if d < |t| { assert s[d - off] == t[d]; }
    }
  }

  lemma LiteralShift(t: string, off: nat, i: nat, literal: string)
    requires off <= i <= |t|
    ensures LiteralAt(t[off..], i - off, literal) <==> LiteralAt(t, i, literal)
  {
    if i + |literal| <= |t| {
      assert t[off..][i - off..i - off + |literal|] == t[i..i + |literal|];
    }
  }

  lemma HeadShift(t: string, off: nat, i: nat)
    requires off <= i <= |t| && WordBoundary(t, off)
    ensures Shift(HeadAt(t[off..], i - off), off) == HeadAt(t, i)
  {
    hide HeadTail, LiteralAt;
    LiteralShift(t, off, i, DEFINITION);
    if LiteralAt(t, i, DEFINITION) {
      LiteralFits(t, i, DEFINITION);
      HeadTailShift(t, off, i, i + |DEFINITION|);
    }
  }

  lemma LiteralFits(t: string, i: nat, literal: string)
    requires LiteralAt(t, i, literal)
    ensures i + |literal| <= |t|
  {
  }

  /** Searching a suffix that starts at a word boundary finds what searching the
      whole text from there finds. */
  lemma {:induction false} FindHeadShift(t: string, off: nat, i: nat)
    requires off <= i <= |t| && WordBoundary(t, off)
    ensures Shift(FindHead(t[off..], i - off), off) == FindHead(t, i)
    decreases |t| - i
  {
    hide HeadAt;
    HeadShift(t, off, i);
    if HeadAt(t, i) == None && i < |t| {
      FindHeadShift(t, off, i + 1);
    }
  }

  // ---------- matchingBrace ----------

  function Delta(c: char): int {
    if c == '{' then 1 else if c == '}' then -1 else 0
  }

  /** Open braces minus closed ones in t[open..i]. */
  function Depth(t: string, open: nat, i: nat): int
    requires open <= i <= |t|
    decreases i
  {
    if i == open then 0 else Depth(t, open, i - 1) + Delta(t[i - 1])
  }

  ghost predicate ClosesAt(t: string, open: nat, close: nat)
    requires open <= |t|
  {
    && open <= close < |t| && t[close] == '}'
    && Depth(t, open, close + 1) == 0
    && forall i :: open < i <= close ==> Depth(t, open, i) > 0
  }

  ghost predicate NeverCloses(t: string, open: nat)
    requires open <= |t|
  {
    forall i :: open < i <= |t| ==> Depth(t, open, i) > 0
  }

  function CloseFrom(t: string, i: nat, depth: int): Option<nat>
    requires i <= |t|
    decreases |t| - i
  {
    if i == |t| then None
    else
      var d := depth + Delta(t[i]);
      if t[i] == '}' && d == 0 then Some(i) else CloseFrom(t, i + 1, d)
  }

  function CloseOf(t: string, open: nat): Option<nat>
    requires open <= |t|
  {
    CloseFrom(t, open, 0)
  }

  method MatchingBrace(t: string, open: nat) returns (close: Option<nat>)
    requires open < |t|
    ensures close == CloseOf(t, open)
  {
    var depth := 0;
    for i := open to |t|
      invariant CloseFrom(t, i, depth) == CloseOf(t, open)
    {
      if t[i] == '{' {
        depth := depth + 1;
      } else if t[i] == '}' {
        depth := depth - 1;
        if depth == 0 {
          return Some(i);
        }
      }
    }
    close := None;
  }

  lemma {:induction false} CloseFromExact(t: string, open: nat, i: nat)
    requires open < i <= |t| && forall k :: open < k <= i ==> Depth(t, open, k) > 0
    ensures var close := CloseFrom(t, i, Depth(t, open, i));
      match close
      case Some(c) => ClosesAt(t, open, c)
      case None => NeverCloses(t, open)
    decreases |t| - i
  {
    if i < |t| {
      assert Depth(t, open, i + 1) == Depth(t, open, i) + Delta(t[i]);
      if !(t[i] == '}' && Depth(t, open, i + 1) == 0) {
        CloseFromExact(t, open, i + 1);
      }
    }
  }

  /** The closing brace found is the least index that balances the opening one,
      and none is found exactly when the text never balances it. */
  lemma CloseExact(t: string, open: nat)
    requires open < |t| && t[open] == '{'
    ensures CloseOf(t, open).Some? ==> ClosesAt(t, open, CloseOf(t, open).value) && open < CloseOf(t, open).value
    ensures CloseOf(t, open) == None <==> NeverCloses(t, open)
  {
    assert Depth(t, open, open) == 0;
    assert Depth(t, open, open + 1) == 1;
    CloseFromExact(t, open, open + 1);
  }

  // ---------- (?m)^\s*(relation|permission)\s+(name)\s*[:=]\s*([^\r\n]+?)\s*$ ----------

  datatype Kind = Relation | Permission

  datatype Decl = Decl(kind: Kind, name: string, expression: string)

  datatype DeclMatch = DeclMatch(decl: Decl, end: nat)

  const RELATION := "relation"
  const PERMISSION := "permission"

  predicate AtLineStart(b: string, i: nat)
    requires i <= |b|
  {
    i == 0 || b[i - 1] == '\n'
  }

  predicate AtLineEnd(b: string, i: nat)
    requires i <= |b|
  {
    i == |b| || b[i] == '\n'
  }

  predicate LineBreak(c: char) {
    c == '\r' || c == '\n'
  }

  /** \s*$ from e: the furthest line end in the white space run. */
  function LastLineEnd(b: string, e: nat, f: nat): (r: Option<nat>)
    requires e <= f <= |b|
    ensures r.Some? ==> e <= r.value <= f && AtLineEnd(b, r.value)
    ensures forall g :: (if r.Some? then r.value else e - 1) < g <= f && e <= g ==> !AtLineEnd(b, g)
    decreases f
  {
    if AtLineEnd(b, f) then Some(f)
    else if f == e then None
    else LastLineEnd(b, e, f - 1)
  }

  /** ([^\r\n]+?)\s*$ with the group starting at a: the shortest group that ends a line. */
  function ShortestExpression(b: string, a: nat, e: nat): (r: Option<(nat, nat)>)
    requires a < e <= |b|
    ensures r.Some? ==> a < r.value.0 <= r.value.1 <= |b|
    decreases |b| - e
  {
    var f := LastLineEnd(b, e, SkipWs(b, e));
    if f.Some? then Some((e, f.value))
    else if e < |b| && !LineBreak(b[e]) then ShortestExpression(b, a, e + 1)
    else None
  }

  /** \s*([^\r\n]+?)\s*$ from q: the longest white space run first. */
  function FindExpression(b: string, q: nat, a: nat): (r: Option<(nat, nat, nat)>)
    requires q <= a <= |b|
    ensures r.Some? ==> q <= r.value.0 < r.value.1 <= r.value.2 <= |b|
    decreases a
  {
    var here := if a < |b| && !LineBreak(b[a]) then ShortestExpression(b, a, a + 1) else None;
    if here.Some? then Some((a, here.value.0, here.value.1))
    else if a == q then None
    else FindExpression(b, q, a - 1)
  }

  /** normalizeSchemaExpression */
  function WithoutSpaces(s: string): (r: string)
    ensures forall c :: c in r ==> !IsSpace(c)
  {
    if s == "" then ""
    else WithoutSpaces(s[..|s| - 1]) + (if IsSpace(s[|s| - 1]) then "" else [s[|s| - 1]])
  }

  /** The declaration after its keyword, which ends at k. */
  function DeclTail(b: string, kind: Kind, k: nat): (m: Option<DeclMatch>)
    requires k <= |b|
    ensures m.Some? ==> k < m.value.end <= |b| && m.value.decl.kind == kind && Identifier(m.value.decl.name)
  {
    var n := SkipWs(b, k);
    if n == k || n == |b| || !IdentStart(b[n]) then None
    else
      var e := SkipWord(b, n);
      var p := SkipWs(b, e);
      if p == |b| || (b[p] != ':' && b[p] != '=') then None
      else
        var found := FindExpression(b, p + 1, SkipWs(b, p + 1));
        if found == None then None
        else Some(DeclMatch(Decl(kind, b[n..e], WithoutSpaces(b[found.value.0..found.value.1])), found.value.2))
  }

  function DeclAt(b: string, i: nat): (m: Option<DeclMatch>)
    requires i <= |b|
    ensures m.Some? ==> i < m.value.end <= |b| && Identifier(m.value.decl.name)
  {
    if !AtLineStart(b, i) then None
    else
      var k := SkipWs(b, i);
      if LiteralAt(b, k, RELATION) then DeclTail(b, Relation, k + |RELATION|)
      else if LiteralAt(b, k, PERMISSION) then DeclTail(b, Permission, k + |PERMISSION|)
      else None
  }

  function FindDecl(b: string, i: nat): (m: Option<DeclMatch>)
    requires i <= |b|
    ensures m.Some? ==> i < m.value.end <= |b| && Identifier(m.value.decl.name)
    decreases |b| - i
  {
    if DeclAt(b, i).Some? then DeclAt(b, i)
    else if i < |b| then FindDecl(b, i + 1)
    else None
  }

  /** FindAllStringSubmatch: all matches, each searched from the end of the last. */
  function Decls(b: string, i: nat): (ds: seq<Decl>)
    requires i <= |b|
    ensures forall d :: d in ds ==> Identifier(d.name)
    decreases |b| - i
  {
    match FindDecl(b, i)
    case None => []
    case Some(m) => [m.decl] + Decls(b, m.end)
  }
}
