/** The parser read backwards: every schema with identifier names and plain
    expressions is what parsing some text gives. */
module SchemaRender {
  import opened Text
  import opened SchemaComments
  import opened SchemaScan
  import opened SchemaParse
  import opened SchemaBlocks

  datatype Source = Source(name: string, decls: seq<Decl>)

  /** What an expression may be: normalized, without braces, and without the
      beginning of a comment. */
  ghost predicate PlainExpression(s: string) {
    s != "" && CommentFree(s) && forall c :: c in s ==> !IsSpace(c) && c != '{' && c != '}'
  }

  ghost predicate PlainDecl(d: Decl) {
    Identifier(d.name) && PlainExpression(d.expression)
  }

  ghost predicate Printable(src: Source) {
    Identifier(src.name) && DistinctMembers(src.decls) && forall d :: d in src.decls ==> PlainDecl(d)
  }

  function Keyword(kind: Kind): string {
    if kind == Relation then RELATION else PERMISSION
  }

  function Pad(kind: Kind): string {
    if kind == Relation then "" else " "
  }

  function Mark(kind: Kind): char {
    if kind == Relation then ':' else '='
  }

  function RenderDecl(d: Decl): string {
    Keyword(d.kind) + ([' '] + (d.name + (Pad(d.kind) + ([Mark(d.kind), ' '] + (d.expression + ['\n'])))))
  }

  function RenderDecls(ds: seq<Decl>): string {
    if ds == [] then "" else RenderDecl(ds[0]) + RenderDecls(ds[1..])
  }

  function RenderBody(src: Source): string {
    ['\n'] + RenderDecls(src.decls)
  }

  function RenderSource(src: Source): string {
    DEFINITION + ([' '] + (src.name + ([' ', '{'] + (RenderBody(src) + ['}', '\n']))))
  }

  function Render(sources: seq<Source>): string {
    if sources == [] then "" else RenderSource(sources[0]) + Render(sources[1..])
  }

  // ---------- pieces of a text ----------

  lemma Piece(t: string, pre: string, piece: string, more: string, rest: string)
    requires t == pre + ((piece + more) + rest)
    ensures |pre| + |piece| <= |t| && t[|pre|..|pre| + |piece|] == piece
    ensures t == (pre + piece) + (more + rest)
  {
  }

  lemma LiteralHead(t: string, i: nat, literal: string)
    requires LiteralAt(t, i, literal) && literal != ""
    ensures i < |t| && t[i] == literal[0]
  {
    assert t[i..i + |literal|][0] == t[i];
  }

  lemma At(t: string, i: nat, piece: string, j: nat)
    requires i + |piece| <= |t| && t[i..i + |piece|] == piece && j < |piece|
    ensures t[i + j] == piece[j]
  {
  }

  lemma Halves(t: string, i: nat, a: string, b: string)
    requires i + |a + b| <= |t| && t[i..i + |a + b|] == a + b
    ensures t[i..i + |a|] == a && t[i + |a|..i + |a| + |b|] == b
  {
    assert (a + b)[..|a|] == a && (a + b)[|a|..] == b;
  }

  /** Six pieces in a row. */
  lemma Pieces(t: string, pre: string, a: string, b: string, c: string, d: string, e: string, f: string, rest: string)
    requires t == pre + ((a + (b + (c + (d + (e + f))))) + rest)
    ensures var i := |pre|; var j := i + |a|; var k := j + |b|; var l := k + |c|; var m := l + |d|; var n := m + |e|;
      && n + |f| <= |t|
      && t[i..j] == a && t[j..k] == b && t[k..l] == c && t[l..m] == d && t[m..n] == e && t[n..n + |f|] == f
  {
    Piece(t, pre, a, b + (c + (d + (e + f))), rest);
    Piece(t, pre + a, b, c + (d + (e + f)), rest);
    Piece(t, pre + a + b, c, d + (e + f), rest);
    Piece(t, pre + a + b + c, d, e + f, rest);
    Piece(t, pre + a + b + c + d, e, f, rest);
    Piece(t, pre + a + b + c + d + e, f, "", rest);
  }

  lemma SkipWsIs(t: string, i: nat, j: nat)
    requires i <= j <= |t| && (forall k :: i <= k < j ==> Ws(t[k])) && (j < |t| ==> !Ws(t[j]))
    ensures SkipWs(t, i) == j
  {
    hide Ws;
  }

  lemma SkipWordIs(t: string, i: nat, j: nat)
    requires i <= j <= |t| && (forall k :: i <= k < j ==> Word(t[k])) && (j < |t| ==> !Word(t[j]))
    ensures SkipWord(t, i) == j
  {
    hide Word;
  }

  lemma IdentifierIsVisible(s: string)
    requires Identifier(s)
    ensures forall i :: 0 <= i < |s| ==> Word(s[i]) && !Ws(s[i])
  {
  }

  // ---------- one declaration ----------

  /** Where the parts of a rendered declaration lie behind its keyword. */
  ghost predicate Layout(b: string, d: Decl, k: nat, z: nat) {
    var e := k + 1 + |d.name|;
    var p := e + |Pad(d.kind)|;
    && z == p + 2 + |d.expression| && z < |b|
    && b[k] == ' ' && b[k + 1..e] == d.name && b[e..p] == Pad(d.kind)
    && b[p] == Mark(d.kind) && b[p + 1] == ' ' && b[p + 2..z] == d.expression && b[z] == '\n'
  }

  lemma DeclPieces(b: string, pre: string, d: Decl, rest: string)
    requires b == pre + (RenderDecl(d) + rest)
    ensures var kw, pad := Keyword(d.kind), Pad(d.kind);
      var k := |pre| + |kw|; var e := k + 1 + |d.name|; var p := e + |pad|; var z := p + 2 + |d.expression|;
      && |pre| + |RenderDecl(d)| == z + 1 <= |b|
      && b[|pre|..k] == kw && b[k..k + 1] == [' '] && b[k + 1..e] == d.name && b[e..p] == pad
      && b[p..p + 2] == [Mark(d.kind), ' '] && b[p + 2..z + 1] == d.expression + ['\n']
  {
    hide Keyword, Pad, Mark;
    Pieces(b, pre, Keyword(d.kind), [' '], d.name, Pad(d.kind), [Mark(d.kind), ' '], d.expression + ['\n'], rest);
  }

  lemma DeclLayout(b: string, pre: string, d: Decl, rest: string)
    requires b == pre + (RenderDecl(d) + rest)
    ensures var k := |pre| + |Keyword(d.kind)|;
      && LiteralAt(b, |pre|, Keyword(d.kind))
      && Layout(b, d, k, |pre| + |RenderDecl(d)| - 1)
  {
    hide Keyword, Pad, Mark, RenderDecl;
    DeclPieces(b, pre, d, rest);
    var k := |pre| + |Keyword(d.kind)|;
    var p := k + 1 + |d.name| + |Pad(d.kind)|;
    At(b, k, [' '], 0);
    At(b, p, [Mark(d.kind), ' '], 0);
    At(b, p, [Mark(d.kind), ' '], 1);
    Halves(b, p + 2, d.expression, ['\n']);
    At(b, p + 2 + |d.expression|, ['\n'], 0);
  }

  lemma {:induction false} NoSpacesToDrop(s: string)
    requires forall c :: c in s ==> !IsSpace(c)
    ensures WithoutSpaces(s) == s
  {
    hide IsSpace;
    if s != "" {
      NoSpacesToDrop(s[..|s| - 1]);
      assert s == s[..|s| - 1] + [s[|s| - 1]];
    }
  }

  /** The shortest group that ends a line is the whole expression. */
  lemma {:induction false} ShortestIs(b: string, a: nat, e: nat, z: nat)
    requires a < e <= z < |b| && b[z] == '\n' && (z + 1 < |b| ==> !Ws(b[z + 1]))
    requires forall k :: a <= k < z ==> !Ws(b[k])
    ensures ShortestExpression(b, a, e) == Some((z, if z + 1 == |b| then z + 1 else z))
    decreases z - e
  {
    if e < z {
      SkipWsIs(b, e, e);
      ShortestIs(b, a, e + 1, z);
    } else {
      SkipWsIs(b, z, z + 1);
      assert LastLineEnd(b, z, z) == Some(z);
    }
  }

  function MarkAt(d: Decl, k: nat): nat {
    k + 1 + |d.name| + |Pad(d.kind)|
  }

  lemma NameIs(b: string, d: Decl, k: nat, z: nat)
    requires Layout(b, d, k, z) && Identifier(d.name)
    ensures var n := k + 1;
      && n + |d.name| <= MarkAt(d, k) < |b|
      && SkipWs(b, k) == n && IdentStart(b[n]) && SkipWord(b, n) == n + |d.name|
      && b[n..n + |d.name|] == d.name
      && SkipWs(b, n + |d.name|) == MarkAt(d, k) && (b[MarkAt(d, k)] == ':' || b[MarkAt(d, k)] == '=')
  {
    hide SkipWs, SkipWord;
    var n := k + 1;
    var e := n + |d.name|;
    IdentifierIsVisible(d.name);
    assert forall i :: n <= i < e ==> b[i] == d.name[i - n];
    SkipWsIs(b, k, n);
    assert !Word(b[e]) by { assert b[e] == if d.kind == Relation then Mark(d.kind) else ' '; }
    SkipWordIs(b, n, e);
    SkipWsIs(b, e, MarkAt(d, k));
  }

  lemma ExpressionIs(b: string, d: Decl, k: nat, z: nat)
    requires Layout(b, d, k, z) && PlainExpression(d.expression) && (z + 1 < |b| ==> !Ws(b[z + 1]))
    ensures var p := MarkAt(d, k);
      && p + 2 < z < |b| && b[p + 2..z] == d.expression && WithoutSpaces(d.expression) == d.expression
      && FindExpression(b, p + 1, SkipWs(b, p + 1)) == Some((p + 2, z, if z + 1 == |b| then z + 1 else z))
  {
    hide SkipWs, ShortestExpression, WithoutSpaces, IsSpace;
    var a := MarkAt(d, k) + 2;
    VisibleExpression(d.expression);
    assert forall i :: a <= i < z ==> b[i] == d.expression[i - a];
    SkipWsIs(b, a - 1, a);
    ShortestIs(b, a, a + 1, z);
    NoSpacesToDrop(d.expression);
  }

  lemma TailIs(b: string, d: Decl, k: nat, z: nat)
    requires Layout(b, d, k, z) && PlainDecl(d) && (z + 1 < |b| ==> !Ws(b[z + 1]))
    ensures DeclTail(b, d.kind, k) == Some(DeclMatch(d, if z + 1 == |b| then z + 1 else z))
  {
    hide SkipWs, SkipWord, FindExpression, WithoutSpaces, Layout, MarkAt, Identifier, PlainExpression;
    NameIs(b, d, k, z);
    ExpressionIs(b, d, k, z);
  }

  lemma VisibleExpression(s: string)
    requires PlainExpression(s)
    ensures forall i :: 0 <= i < |s| ==> !Ws(s[i]) && !LineBreak(s[i])
    ensures forall c :: c in s ==> !IsSpace(c)
  {
    forall i | 0 <= i < |s|
      ensures !Ws(s[i]) && !LineBreak(s[i])
    {
      assert s[i] in s;
    }
  }

  /** From the newline before it, a rendered declaration is the next one found. */
  lemma FindsDecl(b: string, pre: string, d: Decl, rest: string)
    requires b == pre + (RenderDecl(d) + rest) && PlainDecl(d)
    requires pre != "" && pre[|pre| - 1] == '\n' && (rest != "" ==> !Ws(rest[0]))
    ensures var z := |pre| + |RenderDecl(d)| - 1;
      |pre| <= z < |b| && FindDecl(b, |pre| - 1) == Some(DeclMatch(d, if rest == "" then z + 1 else z))
  {
    hide DeclTail, DeclAt, SkipWs, Layout, LiteralAt, FindDecl, Ws, RenderDecl, Keyword, PlainDecl;
    var k, z := |pre|, |pre| + |RenderDecl(d)| - 1;
    DeclLayout(b, pre, d, rest);
    LayoutFits(b, d, k + |Keyword(d.kind)|, z);
    if rest != "" { assert b[z + 1] == rest[0]; }
    TailIs(b, d, k + |Keyword(d.kind)|, z);
    assert b[k - 1] == '\n';
    LineOfDecl(b, d, k);
    FindFromNewline(b, k - 1);
  }

  lemma LayoutFits(b: string, d: Decl, k: nat, z: nat)
    requires Layout(b, d, k, z)
    ensures k <= z < |b|
  {
  }

  lemma FindFromNewline(b: string, i: nat)
    requires i + 1 <= |b| && (DeclAt(b, i).Some? ==> DeclAt(b, i) == DeclAt(b, i + 1)) && DeclAt(b, i + 1).Some?
    ensures FindDecl(b, i) == DeclAt(b, i + 1)
  {
    hide DeclAt;
    assert FindDecl(b, i + 1) == DeclAt(b, i + 1);
  }

  lemma KeywordsDiffer(b: string, k: nat)
    requires LiteralAt(b, k, PERMISSION)
    ensures !LiteralAt(b, k, RELATION)
  {
    assert PERMISSION[0] == 'p' && RELATION[0] == 'r';
    LiteralHead(b, k, PERMISSION);
    if LiteralAt(b, k, RELATION) {
      LiteralHead(b, k, RELATION);
    }
  }

  lemma KeywordIsVisible(b: string, k: nat, kind: Kind)
    requires LiteralAt(b, k, Keyword(kind))
    ensures k < |b| && !Ws(b[k])
  {
    var w := Keyword(kind);
    assert |w| > 0 && (w[0] == 'r' || w[0] == 'p');
    LiteralHead(b, k, w);
  }

  lemma LineOfDecl(b: string, d: Decl, k: nat)
    requires k > 0 && k <= |b| && b[k - 1] == '\n' && LiteralAt(b, k, Keyword(d.kind))
    ensures k + |Keyword(d.kind)| <= |b| && DeclAt(b, k) == DeclTail(b, d.kind, k + |Keyword(d.kind)|)
    ensures DeclAt(b, k - 1).Some? ==> DeclAt(b, k - 1) == DeclAt(b, k)
  {
    hide DeclTail, SkipWs, LiteralAt;
    KeywordIsVisible(b, k, d.kind);
    SkipWsIs(b, k, k);
    SkipWsIs(b, k - 1, k);
    LiteralFits(b, k, Keyword(d.kind));
    if d.kind == Permission { KeywordsDiffer(b, k); }
  }

  // ---------- a body ----------

  lemma RenderedStart(d: Decl)
    ensures RenderDecl(d) != "" && !Ws(RenderDecl(d)[0])
  {
    assert RELATION[0] == 'r' && PERMISSION[0] == 'p';
    assert Keyword(d.kind)[0] == 'r' || Keyword(d.kind)[0] == 'p';
    assert RenderDecl(d)[0] == Keyword(d.kind)[0];
  }

  lemma RenderedEnd(pre: string, d: Decl)
    ensures (pre + RenderDecl(d)) != "" && (pre + RenderDecl(d))[|pre| + |RenderDecl(d)| - 1] == '\n'
  {
    hide Keyword, RenderDecl;
    var b := pre + RenderDecl(d);
    assert b == pre + (RenderDecl(d) + "");
    DeclLayout(b, pre, d, "");
  }

  lemma NoDeclAtEnd(b: string)
    ensures Decls(b, |b|) == []
  {
    assert |RELATION| > 0 && |PERMISSION| > 0;
    assert DeclAt(b, |b|) == None;
  }

  lemma NoDeclOnLastLine(b: string)
    requires b != "" && b[|b| - 1] == '\n'
    ensures Decls(b, |b| - 1) == []
  {
    hide DeclTail;
    assert |RELATION| > 0 && |PERMISSION| > 0;
    SkipWsIs(b, |b| - 1, |b|);
    assert DeclAt(b, |b| - 1) == None && DeclAt(b, |b|) == None;
    assert FindDecl(b, |b|) == None;
  }

  lemma DeclsStep(b: string, pre: string, d: Decl, rest: string)
    requires b == pre + (RenderDecl(d) + rest) && PlainDecl(d)
    requires pre != "" && pre[|pre| - 1] == '\n' && (rest != "" ==> !Ws(rest[0]))
    ensures |pre| + |RenderDecl(d)| <= |b| && |RenderDecl(d)| > 0
    ensures Decls(b, |pre| - 1) == [d] + (if rest == "" then [] else Decls(b, |pre| + |RenderDecl(d)| - 1))
  {
    hide FindDecl, Decls, RenderDecl, PlainDecl, Ws;
    FindsDecl(b, pre, d, rest);
    FirstThenRest(b, |pre| - 1);
    assert |b| == |pre| + |RenderDecl(d)| + |rest|;
    NoDeclAtEnd(b);
  }

  lemma FirstThenRest(b: string, i: nat)
    requires i <= |b| && FindDecl(b, i).Some?
    ensures var m := FindDecl(b, i).value; Decls(b, i) == [m.decl] + Decls(b, m.end)
  {
    hide FindDecl;
  }

  lemma {:induction false} DeclsOfRendered(b: string, pre: string, ds: seq<Decl>)
    requires b == pre + RenderDecls(ds) && pre != "" && pre[|pre| - 1] == '\n'
    requires forall d :: d in ds ==> PlainDecl(d)
    ensures Decls(b, |pre| - 1) == ds
    decreases |ds|
  {
    hide Decls, RenderDecl, PlainDecl, Ws;
    if ds == [] {
      assert b == pre;
      NoDeclOnLastLine(b);
    } else {
      var d, rest := ds[0], RenderDecls(ds[1..]);
      RestStart(ds[1..]);
      DeclsStep(b, pre, d, rest);
      if rest == "" {
        RestEmpty(ds);
      } else {
        RenderedEnd(pre, d);
        assert b == (pre + RenderDecl(d)) + rest;
        DeclsOfRendered(b, pre + RenderDecl(d), ds[1..]);
      }
      assert ds == [d] + ds[1..];
    }
  }

  lemma RestStart(ds: seq<Decl>)
    ensures RenderDecls(ds) != "" ==> !Ws(RenderDecls(ds)[0])
  {
    hide RenderDecl, Ws;
    if ds != [] {
      RenderedStart(ds[0]);
    }
  }

  lemma RestEmpty(ds: seq<Decl>)
    requires ds != [] && RenderDecls(ds[1..]) == ""
    ensures |ds| == 1
  {
    hide RenderDecl;
    if |ds| > 1 { RenderedStart(ds[1]); }
  }

  // ---------- a block ----------

  predicate NoneOf(s: string, c: char) {
    forall i :: 0 <= i < |s| ==> s[i] != c
  }

  lemma NoneOfConcat(a: string, b: string, c: char)
    requires NoneOf(a, c) && NoneOf(b, c)
    ensures NoneOf(a + b, c)
  {
  }

  lemma LiteralsPlain(kind: Kind, c: char)
    requires c == '{' || c == '}'
    ensures NoneOf(Keyword(kind), c) && NoneOf(Pad(kind), c) && NoneOf([Mark(kind), ' '], c)
  {
    assert |RELATION| == 8 && |PERMISSION| == 10;
    assert forall i :: 0 <= i < 8 ==> 'a' <= RELATION[i] <= 'z';
    assert forall i :: 0 <= i < 10 ==> 'a' <= PERMISSION[i] <= 'z';
  }

  lemma DeclPlain(d: Decl, c: char)
    requires PlainDecl(d) && (c == '{' || c == '}')
    ensures NoneOf(RenderDecl(d), c)
  {
    hide Keyword, Pad, Mark, NoneOf;
    LiteralsPlain(d.kind, c);
    PartsPlain(d.name, d.expression, c);
    NoneOfConcat(d.expression, ['\n'], c);
    NoneOfConcat([Mark(d.kind), ' '], d.expression + ['\n'], c);
    NoneOfConcat(Pad(d.kind), [Mark(d.kind), ' '] + (d.expression + ['\n']), c);
    NoneOfConcat(d.name, Pad(d.kind) + ([Mark(d.kind), ' '] + (d.expression + ['\n'])), c);
    NoneOfConcat([' '], d.name + (Pad(d.kind) + ([Mark(d.kind), ' '] + (d.expression + ['\n']))), c);
    NoneOfConcat(Keyword(d.kind), [' '] + (d.name + (Pad(d.kind) + ([Mark(d.kind), ' '] + (d.expression + ['\n'])))),
        c);
  }

  lemma PartsPlain(name: string, expression: string, c: char)
    requires Identifier(name) && PlainExpression(expression) && (c == '{' || c == '}')
    ensures NoneOf(name, c) && NoneOf(expression, c) && NoneOf(['\n'], c) && NoneOf([' '], c)
  {
    hide IsSpace;
    assert forall i :: 0 <= i < |expression| ==> expression[i] in expression;
  }

  lemma {:induction false} BodyPlain(ds: seq<Decl>, c: char)
    requires (forall d :: d in ds ==> PlainDecl(d)) && (c == '{' || c == '}')
    ensures NoneOf(RenderDecls(ds), c)
    ensures NoneOf(['\n'] + RenderDecls(ds), c)
  {
    hide RenderDecl, PlainDecl;
    if ds != [] {
      DeclPlain(ds[0], c);
      BodyPlain(ds[1..], c);
      NoneOfConcat(RenderDecl(ds[0]), RenderDecls(ds[1..]), c);
    }
    NoneOfConcat(['\n'], RenderDecls(ds), c);
  }

  // ---------- no comment begins in a rendered text ----------

  /** No comment begins in the text, nor with its last character. */
  ghost predicate Quiet(s: string) {
    CommentFree(s) && (s != "" ==> s[|s| - 1] != '/')
  }

  lemma QuietConcat(a: string, b: string)
    requires Quiet(a) && Quiet(b)
    ensures Quiet(a + b)
  {
    forall i: nat
      ensures !Opens(a + b, i)
    {
      assert i + 1 < |a| ==> !Opens(a, i);
      assert i >= |a| ==> !Opens(b, i - |a|);
    }
  }

  lemma NoSlashQuiet(s: string)
    requires NoneOf(s, '/')
    ensures Quiet(s)
  {
  }

  lemma LineQuiet(s: string)
    requires CommentFree(s)
    ensures Quiet(s + ['\n'])
  {
    forall i: nat
      ensures !Opens(s + ['\n'], i)
    {
      assert !Opens(s, i);
    }
  }

  lemma LiteralsQuiet(kind: Kind)
    ensures Quiet(Keyword(kind)) && Quiet(Pad(kind)) && Quiet([Mark(kind), ' ']) && Quiet(DEFINITION)
    ensures Quiet([' ']) && Quiet(['\n']) && Quiet([' ', '{']) && Quiet(['}', '\n'])
  {
    assert |RELATION| == 8 && |PERMISSION| == 10 && |DEFINITION| == 10;
    assert forall i :: 0 <= i < 8 ==> 'a' <= RELATION[i] <= 'z';
    assert forall i :: 0 <= i < 10 ==> 'a' <= PERMISSION[i] <= 'z' && 'a' <= DEFINITION[i] <= 'z';
  }

  lemma IdentifierQuiet(name: string)
    requires Identifier(name)
    ensures Quiet(name)
  {
    NoSlashQuiet(name);
  }

  lemma DeclQuiet(d: Decl)
    requires PlainDecl(d)
    ensures Quiet(RenderDecl(d))
  {
    hide Keyword, Pad, Mark, Quiet, Identifier;
    var last := d.expression + ['\n'];
    LiteralsQuiet(d.kind);
    IdentifierQuiet(d.name);
    LineQuiet(d.expression);
    QuietConcat([Mark(d.kind), ' '], last);
    QuietConcat(Pad(d.kind), [Mark(d.kind), ' '] + last);
    QuietConcat(d.name, Pad(d.kind) + ([Mark(d.kind), ' '] + last));
    QuietConcat([' '], d.name + (Pad(d.kind) + ([Mark(d.kind), ' '] + last)));
    QuietConcat(Keyword(d.kind), [' '] + (d.name + (Pad(d.kind) + ([Mark(d.kind), ' '] + last))));
  }

  lemma {:induction false} BodyQuiet(ds: seq<Decl>)
    requires forall d :: d in ds ==> PlainDecl(d)
    ensures Quiet(RenderDecls(ds))
    ensures Quiet(['\n'] + RenderDecls(ds))
  {
    hide RenderDecl, PlainDecl, Quiet;
    if ds == [] {
      NoSlashQuiet("");
    } else {
      DeclQuiet(ds[0]);
      BodyQuiet(ds[1..]);
      QuietConcat(RenderDecl(ds[0]), RenderDecls(ds[1..]));
    }
    LiteralsQuiet(Relation);
    QuietConcat(['\n'], RenderDecls(ds));
  }

  // ---------- a definition ----------

  lemma {:induction false} CloseIs(t: string, i: nat, close: nat)
    requires i <= close < |t| && t[close] == '}'
    requires forall k :: i <= k < close ==> t[k] != '{' && t[k] != '}'
    ensures CloseFrom(t, i, 1) == Some(close)
    decreases close - i
  {
    if i < close {
      CloseIs(t, i + 1, close);
    }
  }

  /** The block of a rendered definition that starts behind `pre`. */
  function BlockOf(pre: string, src: Source): Block {
    var open := |pre| + |DEFINITION| + |src.name| + 2;
    Block(src.name, |pre|, open, open + 1 + |RenderBody(src)|)
  }

  ghost predicate SourceLayout(t: string, b: Block, name: string, body: string) {
    var n := b.start + |DEFINITION| + 1;
    && LiteralAt(t, b.start, DEFINITION)
    && b.open == n + |name| + 1 && b.close == b.open + 1 + |body| && b.close + 1 < |t|
    && t[n - 1] == ' ' && t[n..n + |name|] == name && t[b.open - 1] == ' ' && t[b.open] == '{'
    && t[b.open + 1..b.close] == body && t[b.close] == '}' && t[b.close + 1] == '\n'
  }

  lemma SourceLayoutIs(t: string, pre: string, src: Source, rest: string)
    requires t == pre + (RenderSource(src) + rest)
    ensures SourceLayout(t, BlockOf(pre, src), src.name, RenderBody(src))
    ensures BlockOf(pre, src).close + 2 == |pre| + |RenderSource(src)|
  {
    hide RenderBody;
    var b, body := BlockOf(pre, src), RenderBody(src);
    Pieces(t, pre, DEFINITION, [' '], src.name, [' ', '{'], body, ['}', '\n'], rest);
    var n := b.start + |DEFINITION| + 1;
    At(t, n - 1, [' '], 0);
    At(t, b.open - 1, [' ', '{'], 0);
    At(t, b.open - 1, [' ', '{'], 1);
    At(t, b.close, ['}', '\n'], 0);
    At(t, b.close, ['}', '\n'], 1);
  }

  lemma BlankIsNoWord()
    ensures Ws(' ') && !Word(' ') && !Ws('{')
    ensures forall c :: IdentStart(c) ==> Word(c) && !Ws(c)
  {
  }

  /** The name and the brace behind the keyword, which ends at a. */
  lemma HeadTailIs(t: string, i: nat, a: nat, name: string)
    requires i < a && a + |name| + 2 < |t| && Identifier(name)
    requires t[a] == ' ' && t[a + 1..a + 1 + |name|] == name && t[a + 1 + |name|] == ' ' && t[a + |name| + 2] == '{'
    ensures HeadTail(t, i, a) == Some(Head(i, a + 1, a + 1 + |name|, a + |name| + 2))
  {
    hide SkipWs, SkipWord, Ws, Word, IdentStart;
    var n := a + 1;
    IdentifierIsVisible(name);
    BlankIsNoWord();
    forall i | n <= i < n + |name|
      ensures t[i] == name[i - n]
    {
      At(t, n, name, i - n);
    }
    SkipWsIs(t, a, n);
    SkipWordIs(t, n, n + |name|);
    SkipWsIs(t, n + |name|, n + |name| + 1);
  }

  lemma HeadIs(t: string, b: Block, name: string, body: string)
    requires SourceLayout(t, b, name, body) && Identifier(name) && WordBoundary(t, b.start)
    ensures var n := b.start + |DEFINITION| + 1;
      HeadAt(t, b.start) == Some(Head(b.start, n, n + |name|, b.open))
  {
    hide HeadTail, LiteralAt, WordBoundary, Identifier;
    assert |DEFINITION| > 0;
    HeadTailIs(t, b.start, b.start + |DEFINITION|, name);
  }

  lemma NextIs(t: string, pre: string, src: Source, rest: string)
    requires t == pre + (RenderSource(src) + rest) && Printable(src)
    requires WordBoundary(t, |pre|)
    ensures var b := BlockOf(pre, src);
      NextBlock(t, |pre|) == Found(b) && b.open < b.close < |t| && BodyOf(t, b) == RenderBody(src)
  {
    hide HeadAt, RenderBody, RenderSource, CloseFrom, Identifier, DistinctMembers, PlainDecl;
    var b := BlockOf(pre, src);
    SourceLayoutIs(t, pre, src, rest);
    HeadIs(t, b, src.name, RenderBody(src));
    BodyBraces(src);
    var body := RenderBody(src);
    assert forall k :: b.open + 1 <= k < b.close ==>
        t[k] == t[b.open + 1..b.close][k - b.open - 1] == body[k - b.open - 1];
    CloseIs(t, b.open + 1, b.close);
    OpenThenClose(t, b.open, b.close);
  }

  lemma OpenThenClose(t: string, open: nat, close: nat)
    requires open < |t| && t[open] == '{' && CloseFrom(t, open + 1, 1) == Some(close)
    ensures CloseOf(t, open) == Some(close)
  {
  }

  lemma BodyBraces(src: Source)
    requires Printable(src)
    ensures forall k :: 0 <= k < |RenderBody(src)| ==> RenderBody(src)[k] != '{' && RenderBody(src)[k] != '}'
  {
    hide PlainDecl, Identifier, DistinctMembers;
    BodyPlain(src.decls, '{');
    BodyPlain(src.decls, '}');
  }

  // ---------- a whole schema ----------

  function BlocksOf(pre: string, sources: seq<Source>): (bs: seq<Block>)
    ensures |bs| == |sources|
    decreases |sources|
  {
    if sources == [] then [] else [BlockOf(pre, sources[0])] + BlocksOf(pre + RenderSource(sources[0]), sources[1..])
  }

  /** The block is the source's, name and body. */
  ghost predicate Renders(t: string, b: Block, src: Source) {
    b.open < b.close <= |t| && b.name == src.name && BodyOf(t, b) == RenderBody(src)
  }

  lemma SourceEnds(t: string, pre: string, src: Source, rest: string)
    requires t == pre + (RenderSource(src) + rest)
    ensures WordBoundary(t, |pre + RenderSource(src)|)
    ensures var b := BlockOf(pre, src);
      b.close + 2 == |pre + RenderSource(src)| && b.close + 2 <= |t| && !IdentStart(t[b.close + 1])
  {
    SourceLayoutIs(t, pre, src, rest);
  }

  lemma NothingMore(t: string)
    ensures Blocks(t, |t|) == Scan([], None)
  {
    hide HeadTail;
    assert |DEFINITION| > 0;
    assert FindHead(t, |t|) == None;
  }

  lemma NoHeadAt(t: string, i: nat)
    requires i < |t| && !IdentStart(t[i])
    ensures HeadAt(t, i) == None
  {
    hide HeadTail, LiteralAt;
    assert DEFINITION[0] == 'd';
    if LiteralAt(t, i, DEFINITION) {
      LiteralHead(t, i, DEFINITION);
    }
  }

  /** The newline behind a block is skipped. */
  lemma BlocksAfterNewline(t: string, i: nat)
    requires i < |t| && !IdentStart(t[i])
    ensures Blocks(t, i) == Blocks(t, i + 1)
  {
    hide HeadAt, CloseOf, IdentStart, Identifier, NextBlock, Blocks;
    NoHeadAt(t, i);
    assert FindHead(t, i) == FindHead(t, i + 1);
    SameNext(t, i);
    SameBlocks(t, i);
  }

  lemma SameNext(t: string, i: nat)
    requires i < |t| && FindHead(t, i) == FindHead(t, i + 1)
    ensures NextBlock(t, i) == NextBlock(t, i + 1)
  {
    hide FindHead, HeadAt, CloseOf, Identifier;
  }

  lemma SameBlocks(t: string, i: nat)
    requires i < |t| && NextBlock(t, i) == NextBlock(t, i + 1)
    ensures Blocks(t, i) == Blocks(t, i + 1)
  {
    hide NextBlock;
  }

  lemma {:induction false} BlocksOfRendered(t: string, pre: string, sources: seq<Source>)
    requires t == pre + Render(sources) && WordBoundary(t, |pre|)
    requires forall src :: src in sources ==> Printable(src)
    ensures Blocks(t, |pre|) == Scan(BlocksOf(pre, sources), None)
    ensures forall i :: 0 <= i < |sources| ==> Renders(t, BlocksOf(pre, sources)[i], sources[i])
    decreases |sources|
  {
    hide NextBlock, RenderSource, Printable, BlockOf, RenderBody, IdentStart, Renders;
    if sources == [] {
      assert t == pre;
      NothingMore(t);
    } else {
      var src, rest := sources[0], Render(sources[1..]);
      var next := pre + RenderSource(src);
      assert t == pre + (RenderSource(src) + rest) == next + rest;
      NextIs(t, pre, src, rest);
      SourceEnds(t, pre, src, rest);
      var b := BlockOf(pre, src);
      BlocksAfterNewline(t, b.close + 1);
      BlocksOfRendered(t, next, sources[1..]);
      FirstRenders(t, pre, src);
      RendersCons(t, b, BlocksOf(next, sources[1..]), src, sources[1..]);
      assert sources == [src] + sources[1..];
    }
  }

  lemma FirstRenders(t: string, pre: string, src: Source)
    requires var b := BlockOf(pre, src); b.open < b.close < |t| && BodyOf(t, b) == RenderBody(src)
    ensures Renders(t, BlockOf(pre, src), src)
  {
  }

  lemma RendersCons(t: string, b: Block, bs: seq<Block>, src: Source, sources: seq<Source>)
    requires Renders(t, b, src) && |bs| == |sources| && forall i :: 0 <= i < |bs| ==> Renders(t, bs[i], sources[i])
    ensures forall i :: 0 <= i <= |bs| ==> Renders(t, ([b] + bs)[i], ([src] + sources)[i])
  {
    hide Renders;
  }

  ghost predicate DistinctSources(sources: seq<Source>) {
    forall i, j :: 0 <= i < j < |sources| ==> sources[i].name != sources[j].name
  }

  ghost predicate Describes(sources: seq<Source>, schema: Schema) {
    && (forall name :: name in schema <==> exists i :: 0 <= i < |sources| && sources[i].name == name)
    && (forall i :: 0 <= i < |sources| ==>
        sources[i].name in schema && Holds(schema[sources[i].name], sources[i].decls))
  }

  lemma {:induction false} RenderedQuiet(sources: seq<Source>)
    requires forall src :: src in sources ==> Printable(src)
    ensures Quiet(Render(sources))
  {
    hide RenderSource, Printable, Quiet;
    if sources == [] {
      NoSlashQuiet("");
    } else {
      SourceQuiet(sources[0]);
      RenderedQuiet(sources[1..]);
      QuietConcat(RenderSource(sources[0]), Render(sources[1..]));
    }
  }

  lemma SourceQuiet(src: Source)
    requires Printable(src)
    ensures Quiet(RenderSource(src))
  {
    hide Quiet, PlainDecl, DistinctMembers, Identifier;
    var body := RenderBody(src);
    LiteralsQuiet(Relation);
    IdentifierQuiet(src.name);
    BodyQuiet(src.decls);
    QuietConcat(body, ['}', '\n']);
    QuietConcat([' ', '{'], body + ['}', '\n']);
    QuietConcat(src.name, [' ', '{'] + (body + ['}', '\n']));
    QuietConcat([' '], src.name + ([' ', '{'] + (body + ['}', '\n'])));
    QuietConcat(DEFINITION, [' '] + (src.name + ([' ', '{'] + (body + ['}', '\n']))));
  }

  lemma RenderedIsFree(t: string)
    requires Quiet(t)
    ensures Strip(t, 0) == t
  {
    FreeIsUnchanged(t, 0);
    assert t[0..] == t;
  }

  lemma RenderedDecls(src: Source)
    requires Printable(src)
    ensures Decls(RenderBody(src), 0) == src.decls
  {
    hide PlainDecl, Identifier, DistinctMembers;
    DeclsOfRendered(RenderBody(src), ['\n'], src.decls);
  }

  /** Parsing the rendered definitions gives exactly those definitions. */
  lemma ParseRendered(sources: seq<Source>)
    requires DistinctSources(sources) && forall src :: src in sources ==> Printable(src)
    ensures Parse(Render(sources)).Ok? && Describes(sources, Parse(Render(sources)).value)
  {
    hide Render, Strip, Blocks, Parse, Decls, RenderBody, Holds, Renders, PlainDecl, Identifier, DistinctMembers,
        BlocksOf;
    var t := Render(sources);
    RenderedQuiet(sources);
    RenderedIsFree(t);
    assert t == "" + t;
    BlocksOfRendered(t, "", sources);
    ParseExact(t);
    var bs := BlocksOf("", sources);
    forall i | 0 <= i < |bs|
      ensures bs[i].name == sources[i].name && bs[i].open < bs[i].close <= |t|
          && Decls(BodyOf(t, bs[i]), 0) == sources[i].decls
    {
      RendersMeans(t, bs[i], sources[i]);
      RenderedDecls(sources[i]);
    }
    ScanDescribes(t, bs, sources);
  }

  lemma RendersMeans(t: string, b: Block, src: Source)
    requires Renders(t, b, src)
    ensures b.open < b.close <= |t| && b.name == src.name && BodyOf(t, b) == RenderBody(src)
  {
  }

  lemma ScanDescribes(t: string, bs: seq<Block>, sources: seq<Source>)
    requires |bs| == |sources| && DistinctSources(sources) && forall src :: src in sources ==> Printable(src)
    requires forall i :: 0 <= i < |bs| ==>
      (bs[i].name == sources[i].name && bs[i].open < bs[i].close <= |t|
          && Decls(BodyOf(t, bs[i]), 0) == sources[i].decls)
    ensures DistinctNames(bs) && GoodBodies(t, bs)
    ensures forall schema :: SchemaOf(t, bs, schema) ==> Describes(sources, schema)
  {
    hide Decls, Holds, BodyOf, PlainDecl, Identifier, DistinctMembers;
    forall i | 0 <= i < |bs|
      ensures DistinctMembers(Decls(BodyOf(t, bs[i]), 0))
    {
      assert sources[i] in sources;
    }
    forall schema | SchemaOf(t, bs, schema)
      ensures Describes(sources, schema)
    {
      forall name
        ensures name in schema <==> exists i :: 0 <= i < |sources| && sources[i].name == name
      {
        if name in schema {
          var i :| 0 <= i < |bs| && bs[i].name == name;
          assert sources[i].name == name;
        }
        if i :| 0 <= i < |sources| && sources[i].name == name {
          assert bs[i].name == name;
        }
      }
      forall i | 0 <= i < |sources|
        ensures sources[i].name in schema && Holds(schema[sources[i].name], sources[i].decls)
      {
        assert BlockIn(t, bs[i], schema);
      }
    }
  }

  // ---------- every plain schema is parsed from some text ----------

  ghost predicate PlainDefinition(def: Definition) {
    && def.relations.Keys !! def.permissions.Keys
    && (forall m :: m in def.relations ==> PlainDecl(Decl(Relation, m, def.relations[m])))
    && (forall m :: m in def.permissions ==> PlainDecl(Decl(Permission, m, def.permissions[m])))
  }

  ghost predicate PlainSchema(schema: Schema) {
    forall name :: name in schema ==> Identifier(name) && PlainDefinition(schema[name])
  }

  lemma {:induction false} ListMembers(kind: Kind, members: map<string, string>) returns (ds: seq<Decl>)
    ensures forall d :: d in ds <==> d.kind == kind && d.name in members && members[d.name] == d.expression
    ensures DistinctMembers(ds)
  {
    if members == map[] {
      ds := [];
    } else {
      var m :| m in members;
      var rest := ListMembers(kind, members - {m});
      var d := Decl(kind, m, members[m]);
      ds := [d] + rest;
      forall i, j | 0 <= i < j < |ds|
        ensures ds[i].name != ds[j].name
      {
        assert ds[j] == rest[j - 1] && rest[j - 1] in rest;
        assert i > 0 ==> ds[i] == rest[i - 1];
      }
    }
  }

  lemma ListDefinition(def: Definition) returns (ds: seq<Decl>)
    requires PlainDefinition(def)
    ensures Holds(def, ds) && DistinctMembers(ds) && forall d :: d in ds ==> PlainDecl(d)
  {
    hide PlainDecl;
    var relations := ListMembers(Relation, def.relations);
    var permissions := ListMembers(Permission, def.permissions);
    ds := relations + permissions;
    forall i, j | 0 <= i < j < |ds|
      ensures ds[i].name != ds[j].name
    {
      assert i < |relations| ==> ds[i] in relations;
      assert j >= |relations| ==> ds[j] in permissions && ds[j] == permissions[j - |relations|];
      assert i >= |relations| ==> ds[i] == permissions[i - |relations|];
    }
    forall d | d in ds
      ensures PlainDecl(d)
    {
      assert d == Decl(d.kind, d.name, d.expression);
    }
  }

  lemma {:induction false} ListSchema(schema: Schema) returns (sources: seq<Source>)
    requires PlainSchema(schema)
    ensures DistinctSources(sources) && Describes(sources, schema)
    ensures forall src :: src in sources ==> Printable(src)
    decreases |schema|
  {
    hide PlainDefinition, Holds, PlainDecl, Identifier, DistinctMembers, DistinctSources, Describes;
    if schema == map[] {
      sources := [];
      NoSources();
    } else {
      var name :| name in schema;
      var smaller := schema - {name};
      var rest := ListSchema(smaller);
      var ds := ListDefinition(schema[name]);
      sources := [Source(name, ds)] + rest;
      AddSource(schema, name, ds, rest);
    }
  }

  lemma NoSources()
    ensures DistinctSources([]) && Describes([], map[])
  {
  }

  lemma AddSource(schema: Schema, name: string, ds: seq<Decl>, rest: seq<Source>)
    requires name in schema && Holds(schema[name], ds)
    requires DistinctSources(rest) && Describes(rest, schema - {name})
    ensures DistinctSources([Source(name, ds)] + rest) && Describes([Source(name, ds)] + rest, schema)
  {
    hide Holds;
    var sources := [Source(name, ds)] + rest;
    forall i | 0 < i < |sources|
      ensures sources[i] == rest[i - 1] && sources[i].name in schema && sources[i].name != name
      ensures Holds(schema[sources[i].name], sources[i].decls)
    {
      assert rest[i - 1].name in schema - {name};
    }
    forall other | other in schema
      ensures exists i :: 0 <= i < |sources| && sources[i].name == other
    {
      if other == name {
        assert sources[0].name == name;
      } else {
        assert other in schema - {name};
        var i :| 0 <= i < |rest| && rest[i].name == other;
        assert sources[i + 1].name == other;
      }
    }
  }

  lemma HoldsDetermines(a: Definition, b: Definition, ds: seq<Decl>)
    requires Holds(a, ds) && Holds(b, ds)
    ensures a == b
  {
    SameMap(Relation, a.relations, b.relations, ds);
    SameMap(Permission, a.permissions, b.permissions, ds);
  }

  lemma SameMap(kind: Kind, a: map<string, string>, b: map<string, string>, ds: seq<Decl>)
    requires forall m, e :: m in a && a[m] == e <==> Decl(kind, m, e) in ds
    requires forall m, e :: m in b && b[m] == e <==> Decl(kind, m, e) in ds
    ensures a == b
  {
    forall m
      ensures m in a <==> m in b
      ensures m in a ==> a[m] == b[m]
    {
      if m in a {
        assert Decl(kind, m, a[m]) in ds;
      }
      if m in b {
        assert Decl(kind, m, b[m]) in ds;
      }
    }
  }

  lemma DescribesDetermines(sources: seq<Source>, a: Schema, b: Schema)
    requires Describes(sources, a) && Describes(sources, b)
    ensures a == b
  {
    hide Holds;
    forall name | name in a
      ensures name in b && a[name] == b[name]
    {
      var i :| 0 <= i < |sources| && sources[i].name == name;
      HoldsDetermines(a[name], b[name], sources[i].decls);
    }
    assert a.Keys == b.Keys;
  }

  /** The round trip: every schema with identifier names and plain expressions is
      exactly what its rendered text parses to. */
  lemma EveryPlainSchemaParses(schema: Schema) returns (text: string)
    requires PlainSchema(schema)
    ensures Parse(text) == Ok(schema)
  {
    hide Parse, Render, Printable, DistinctSources, Describes, PlainSchema;
    var sources := ListSchema(schema);
    text := Render(sources);
    ParseRendered(sources);
    DescribesDetermines(sources, Parse(text).value, schema);
  }
}
