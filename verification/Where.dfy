/** The query builder: it writes a condition as SQL text with placeholders and
    collects their arguments. What the text means is given by reading it back:
    a lexer and a parser in which AND binds tighter than OR. */
module Where {
  import opened Text

  /** An argument or a stored value; Nil is nil, and NULL in a row. */
  datatype Value = Nil | Str(s: string) | Num(n: int)

  datatype Condition = Eq(col: string, value: Value) | LikeAny(cols: seq<string>, q: string) | IsNull(col: string)
      | IsNotNull(col: string)

  // ---------- the builder ----------

  /** A condition that the builder leaves out. */
  predicate Skipped(c: Condition) {
    match c
    case Eq(_, v) => v == Nil || (v.Str? && Blank(v.s))
    case LikeAny(cols, q) => Blank(q) || cols == []
    case _ => false
  }

  function Pattern(q: string): string {
    "%" + Trim(q) + "%"
  }

  function LikeText(col: string): string {
    col + " ILIKE ?"
  }

  function LikeTexts(cols: seq<string>): (r: seq<string>)
    ensures |r| == |cols| && forall i :: 0 <= i < |cols| ==> r[i] == LikeText(cols[i])
  {
    seq(|cols|, i requires 0 <= i < |cols| => LikeText(cols[i]))
  }

  /** strings.Join */
  function Join(parts: seq<string>, sep: string): string {
    if parts == [] then "" else if |parts| == 1 then parts[0] else parts[0] + sep + Join(parts[1..], sep)
  }

  function PartText(c: Condition): string {
    match c
    case Eq(col, _) => col + " = ?"
    case LikeAny(cols, _) => "(" + Join(LikeTexts(cols), " OR ") + ")"
    case IsNull(col) => col + " IS NULL"
    case IsNotNull(col) => col + " IS NOT NULL"
  }

  function PartTexts(cs: seq<Condition>): (r: seq<string>)
    ensures |r| == |cs| && forall i :: 0 <= i < |cs| ==> r[i] == PartText(cs[i])
  {
    seq(|cs|, i requires 0 <= i < |cs| => PartText(cs[i]))
  }

  function Query(cs: seq<Condition>): string {
    Join(PartTexts(cs), " AND ")
  }

  function Repeated(v: Value, n: nat): (r: seq<Value>)
    ensures |r| == n && forall i :: 0 <= i < n ==> r[i] == v
  {
    seq(n, _ => v)
  }

  function ArgsOf(c: Condition): seq<Value> {
    match c
    case Eq(_, v) => [v]
    case LikeAny(cols, q) => Repeated(Str(Pattern(q)), |cols|)
    case _ => []
  }

  function AllArgs(cs: seq<Condition>): seq<Value> {
    if cs == [] then [] else ArgsOf(cs[0]) + AllArgs(cs[1..])
  }

  lemma {:induction false} AllArgsAppend(cs: seq<Condition>, c: Condition)
    ensures AllArgs(cs + [c]) == AllArgs(cs) + ArgsOf(c)
  {
    if cs == [] {
      assert AllArgs([c]) == ArgsOf(c) + [];
    } else {
      assert (cs + [c])[1..] == cs[1..] + [c];
      AllArgsAppend(cs[1..], c);
    }
  }

  class QueryBuilder {
    var parts: seq<string>
    var args: seq<Value>
    /** The conditions given so far and not skipped. */
    ghost var conditions: seq<Condition>

    ghost predicate Valid()
      reads this
    {
      parts == PartTexts(conditions) && args == AllArgs(conditions) && forall c :: c in conditions ==> !Skipped(c)
    }

    constructor ()
      ensures Valid() && conditions == []
    {
      parts, args, conditions := [], [], [];
    }

    ghost method Record(c: Condition)
      modifies this`conditions
      ensures conditions == if Skipped(c) then old(conditions) else old(conditions) + [c]
      ensures AllArgs(conditions) == AllArgs(old(conditions)) + (if Skipped(c) then [] else ArgsOf(c))
      ensures PartTexts(conditions) == PartTexts(old(conditions)) + (if Skipped(c) then [] else [PartText(c)])
    {
      AllArgsAppend(conditions, c);
      conditions := if Skipped(c) then conditions else conditions + [c];
    }

    method Equal(col: string, value: Value)
      requires Valid()
      modifies this
      ensures Valid()
      ensures conditions == old(conditions)
          + (if value == Nil || (value.Str? && Blank(value.s)) then [] else [Eq(col, value)])
    {
      hide PartText, Blank;
      Record(Eq(col, value));
      if value == Nil { return; }
      if value.Str? && Blank(value.s) { return; }
      parts := parts + [col + " = ?"];
      args := args + [value];
      assert PartText(Eq(col, value)) == col + " = ?" by { EqText(col, value); }
    }

    method AnyLike(cols: seq<string>, query: string)
      requires Valid()
      modifies this
      ensures Valid()
      ensures conditions == old(conditions) + (if Blank(query) || cols == [] then [] else [LikeAny(cols, query)])
    {
      hide PartText, Join, Trim, LikeText, LikeTexts, Repeated, PartTexts, AllArgs;
      Record(LikeAny(cols, query));
      var q := Trim(query);
      if q == "" || |cols| == 0 { return; }
      var clauses := [];
      ghost var args0 := args;
      assert LikeTexts(cols[..0]) == [] && Repeated(Str(Pattern(query)), 0) == [];
      for i := 0 to |cols|
        invariant clauses == LikeTexts(cols[..i])
        invariant args == args0 + Repeated(Str(Pattern(query)), i)
        invariant parts == old(parts) && conditions == old(conditions) + [LikeAny(cols, query)]
      {
        OneMore(cols, Str(Pattern(query)), i);
        clauses := clauses + [LikeText(cols[i])];
        args := args + [Str("%" + q + "%")];
      }
      assert cols[..|cols|] == cols;
      parts := parts + ["(" + Join(clauses, " OR ") + ")"];
      LikeAnyText(cols, query);
    }

    method Null(col: string)
      requires Valid()
      modifies this
      ensures Valid() && conditions == old(conditions) + [IsNull(col)]
    {
      Record(IsNull(col));
      parts := parts + [col + " IS NULL"];
    }

    method NotNull(col: string)
      requires Valid()
      modifies this
      ensures Valid() && conditions == old(conditions) + [IsNotNull(col)]
    {
      Record(IsNotNull(col));
      parts := parts + [col + " IS NOT NULL"];
    }

    method Build() returns (query: Option<string>, bound: seq<Value>)
      requires Valid()
      ensures query == if conditions == [] then None else Some(Query(conditions))
      ensures bound == AllArgs(conditions)
    {
      if |parts| == 0 { return None, []; }
      query, bound := Some(Join(parts, " AND ")), args;
    }
  }

  lemma OneMore(cols: seq<string>, v: Value, i: nat)
    requires i < |cols|
    ensures LikeTexts(cols[..i + 1]) == LikeTexts(cols[..i]) + [LikeText(cols[i])]
    ensures Repeated(v, i + 1) == Repeated(v, i) + [v]
  {
    hide LikeText;
  }

  lemma EqText(col: string, value: Value)
    ensures PartText(Eq(col, value)) == col + " = ?"
  {
  }

  lemma LikeAnyText(cols: seq<string>, q: string)
    ensures PartText(LikeAny(cols, q)) == "(" + Join(LikeTexts(cols), " OR ") + ")"
  {
  }

  // ---------- what a condition means ----------

  type Row = string -> Value
  type Matcher = (string, string) -> bool

  predicate Holds(c: Condition, row: Row, like: Matcher) {
    match c
    case Eq(col, v) => row(col) == v
    case LikeAny(cols, q) =>
      exists i :: 0 <= i < |cols| && row(cols[i]).Str? && like(row(cols[i]).s, ['%'] + Trim(q) + ['%'])
    case IsNull(col) => row(col) == Nil
    case IsNotNull(col) => row(col) != Nil
  }

  // ---------- reading a query ----------

  datatype Token = Word(w: string) | KwAnd | KwOr | KwLike | KwIs | KwNot | KwNull | Sym(c: char)

  predicate IsWordChar(c: char) {
    'a' <= c <= 'z' || 'A' <= c <= 'Z' || '0' <= c <= '9' || c == '_' || c == '.'
  }

  predicate IsWord(s: string) {
    s != "" && forall i :: 0 <= i < |s| ==> IsWordChar(s[i])
  }

  function Classify(w: string): Token {
    if w == "AND" then KwAnd
    else if w == "OR" then KwOr
    else if w == "ILIKE" then KwLike
    else if w == "IS" then KwIs
    else if w == "NOT" then KwNot
    else if w == "NULL" then KwNull
    else Word(w)
  }

  predicate IsColumn(s: string) {
    IsWord(s) && Classify(s) == Word(s)
  }

  function WordLength(s: string): (n: nat)
    ensures n <= |s| && forall i :: 0 <= i < n ==> IsWordChar(s[i])
    ensures n < |s| ==> !IsWordChar(s[n])
  {
    if s == "" || !IsWordChar(s[0]) then 0 else 1 + WordLength(s[1..])
  }

  function Lex(s: string): seq<Token>
    decreases |s|
  {
    if s == "" then []
    else if s[0] == ' ' then Lex(s[1..])
    else if !IsWordChar(s[0]) then [Sym(s[0])] + Lex(s[1..])
    else [Classify(s[..WordLength(s)])] + Lex(s[WordLength(s)..])
  }

  /** Comparisons carry the number of their placeholder. */
  datatype Expr = IsEqual(col: string, arg: nat) | IsLike(col: string, arg: nat) | Absent(col: string)
      | Present(col: string)
                | And(left: Expr, right: Expr) | Or(left: Expr, right: Expr)

  datatype Parsed = Parsed(expr: Expr, rest: seq<Token>, args: nat)

  predicate Starts(ts: seq<Token>, t: Token) {
    ts != [] && ts[0] == t
  }

  function ParseComparison(ts: seq<Token>, n: nat): (r: Option<Parsed>)
    ensures r.Some? ==> |r.value.rest| < |ts|
  {
    if |ts| < 3 || !ts[0].Word? then None
    else if ts[1] == Sym('=') && ts[2] == Sym('?') then Some(Parsed(IsEqual(ts[0].w, n), ts[3..], n + 1))
    else if ts[1] == KwLike && ts[2] == Sym('?') then Some(Parsed(IsLike(ts[0].w, n), ts[3..], n + 1))
    else if ts[1] == KwIs && ts[2] == KwNull then Some(Parsed(Absent(ts[0].w), ts[3..], n))
    else if ts[1] == KwIs && ts[2] == KwNot && |ts| > 3 && ts[3] == KwNull
        then Some(Parsed(Present(ts[0].w), ts[4..], n))
    else None
  }

  function ParseAtom(ts: seq<Token>, n: nat): (r: Option<Parsed>)
    ensures r.Some? ==> |r.value.rest| < |ts|
    decreases |ts|, 0
  {
    if Starts(ts, Sym('(')) then
      var inner := ParseOr(ts[1..], n);
      if inner.Some? && Starts(inner.value.rest, Sym(')')) then Some(inner.value.(rest := inner.value.rest[1..]))
          else None
    else ParseComparison(ts, n)
  }

  function ParseAnd(ts: seq<Token>, n: nat): (r: Option<Parsed>)
    ensures r.Some? ==> |r.value.rest| < |ts|
    decreases |ts|, 1
  {
    var left := ParseAtom(ts, n);
    if left == None || !Starts(left.value.rest, KwAnd) then left
    else
      var right := ParseAnd(left.value.rest[1..], left.value.args);
      if right == None then None else Some(right.value.(expr := And(left.value.expr, right.value.expr)))
  }

  function ParseOr(ts: seq<Token>, n: nat): (r: Option<Parsed>)
    ensures r.Some? ==> |r.value.rest| < |ts|
    decreases |ts|, 2
  {
    var left := ParseAnd(ts, n);
    if left == None || !Starts(left.value.rest, KwOr) then left
    else
      var right := ParseOr(left.value.rest[1..], left.value.args);
      if right == None then None else Some(right.value.(expr := Or(left.value.expr, right.value.expr)))
  }

  /** The expression a query text denotes, and how many placeholders it has. */
  function Parse(query: string): Option<(Expr, nat)> {
    var p := ParseOr(Lex(query), 0);
    if p.Some? && p.value.rest == [] then Some((p.value.expr, p.value.args)) else None
  }

  /** A comparison with NULL is not true. */
  predicate Eval(e: Expr, args: seq<Value>, row: Row, like: Matcher) {
    match e
    case IsEqual(col, i) => i < |args| && row(col) != Nil && row(col) == args[i]
    case IsLike(col, i) => i < |args| && row(col).Str? && args[i].Str? && like(row(col).s, args[i].s)
    case Absent(col) => row(col) == Nil
    case Present(col) => row(col) != Nil
    case And(l, r) => Eval(l, args, row, like) && Eval(r, args, row, like)
    case Or(l, r) => Eval(l, args, row, like) || Eval(r, args, row, like)
  }

  /** The columns compared with a placeholder, from left to right. */
  function Placeholders(e: Expr): seq<(string, nat)> {
    match e
    case IsEqual(col, i) => [(col, i)]
    case IsLike(col, i) => [(col, i)]
    case And(l, r) => Placeholders(l) + Placeholders(r)
    case Or(l, r) => Placeholders(l) + Placeholders(r)
    case _ => []
  }

  // ---------- the tokens of a query ----------

  ghost predicate ColumnsOf(c: Condition) {
    match c
    case LikeAny(cols, _) => cols != [] && forall i :: 0 <= i < |cols| ==> IsColumn(cols[i])
    case Eq(col, _) => IsColumn(col)
    case IsNull(col) => IsColumn(col)
    case IsNotNull(col) => IsColumn(col)
  }

  function LikeTokens(cols: seq<string>): seq<Token> {
    if cols == [] then []
    else if |cols| == 1 then [Word(cols[0]), KwLike, Sym('?')]
    else [Word(cols[0]), KwLike, Sym('?')] + ([KwOr] + LikeTokens(cols[1..]))
  }

  function PartTokens(c: Condition): seq<Token> {
    match c
    case Eq(col, _) => [Word(col), Sym('='), Sym('?')]
    case LikeAny(cols, _) => [Sym('(')] + (LikeTokens(cols) + [Sym(')')])
    case IsNull(col) => [Word(col), KwIs, KwNull]
    case IsNotNull(col) => [Word(col), KwIs, KwNot, KwNull]
  }

  function QueryTokens(cs: seq<Condition>): seq<Token> {
    if cs == [] then []
    else if |cs| == 1 then PartTokens(cs[0])
    else PartTokens(cs[0]) + ([KwAnd] + QueryTokens(cs[1..]))
  }

  predicate Boundary(rest: string) {
    rest == "" || !IsWordChar(rest[0])
  }

  lemma {:induction false} WordLengthIs(w: string, rest: string)
    requires forall i :: 0 <= i < |w| ==> IsWordChar(w[i])
    requires Boundary(rest)
    ensures WordLength(w + rest) == |w|
    decreases |w|
  {
    hide IsWordChar;
    if w != "" {
      assert (w + rest)[0] == w[0];
      assert (w + rest)[1..] == w[1..] + rest;
      WordLengthIs(w[1..], rest);
    } else {
      assert w + rest == rest;
    }
  }

  lemma LexWord(w: string, rest: string)
    requires IsWord(w) && Boundary(rest)
    ensures Lex(w + rest) == [Classify(w)] + Lex(rest)
  {
    hide Classify;
    WordLengthIs(w, rest);
    assert (w + rest)[0] == w[0];
    assert (w + rest)[..|w|] == w && (w + rest)[|w|..] == rest;
  }

  lemma LexSpace(rest: string)
    ensures Lex([' '] + rest) == Lex(rest)
  {
    assert ([' '] + rest)[1..] == rest;
  }

  lemma LexSym(c: char, rest: string)
    requires c == '=' || c == '?' || c == '(' || c == ')'
    ensures Lex([c] + rest) == [Sym(c)] + Lex(rest)
  {
    assert ([c] + rest)[1..] == rest;
  }

  lemma Keywords()
    ensures IsWord("AND") && Classify("AND") == KwAnd
    ensures IsWord("OR") && Classify("OR") == KwOr
    ensures IsWord("ILIKE") && Classify("ILIKE") == KwLike
    ensures IsWord("IS") && Classify("IS") == KwIs
    ensures IsWord("NOT") && Classify("NOT") == KwNot
    ensures IsWord("NULL") && Classify("NULL") == KwNull
  {
    assert |"OR"| == 2 && |"IS"| == 2 && "OR"[0] == 'O' && "IS"[0] == 'I';
    assert |"AND"| == 3 && |"NOT"| == 3 && "AND"[0] == 'A' && "NOT"[0] == 'N';
    assert |"ILIKE"| == 5 && |"NULL"| == 4;
  }

  /** A blank, a keyword, and what follows. */
  lemma LexKeyword(kw: string, t: Token, rest: string)
    requires IsWord(kw) && Classify(kw) == t && Boundary(rest)
    ensures Lex([' '] + (kw + rest)) == [t] + Lex(rest)
  {
    hide Lex, Classify, IsWord;
    LexSpace(kw + rest);
    LexWord(kw, rest);
  }

  lemma LexMark(rest: string)
    ensures Lex([' '] + (['?'] + rest)) == [Sym('?')] + Lex(rest)
  {
    hide Lex;
    LexSpace(['?'] + rest);
    LexSym('?', rest);
  }

  lemma LexLike(col: string, rest: string)
    requires IsColumn(col)
    ensures Lex(LikeText(col) + rest) == [Word(col), KwLike, Sym('?')] + Lex(rest)
  {
    hide Lex, Classify, IsWord;
    Keywords();
    var t2 := [' '] + (['?'] + rest);
    var t1 := [' '] + ("ILIKE" + t2);
    assert LikeText(col) + rest == col + t1;
    LexWord(col, t1);
    LexKeyword("ILIKE", KwLike, t2);
    LexMark(rest);
  }

  lemma {:induction false} LexLikes(cols: seq<string>, rest: string)
    requires cols != [] && forall i :: 0 <= i < |cols| ==> IsColumn(cols[i])
    ensures Lex(Join(LikeTexts(cols), " OR ") + rest) == LikeTokens(cols) + Lex(rest)
    decreases |cols|
  {
    hide Lex, Classify, IsWord, IsColumn, LikeText;
    if |cols| == 1 {
      LexLike(cols[0], rest);
    } else {
      assert LikeTexts(cols)[1..] == LikeTexts(cols[1..]);
      var tail := Join(LikeTexts(cols[1..]), " OR ") + rest;
      var t2 := [' '] + tail;
      var t1 := [' '] + ("OR" + t2);
      assert Join(LikeTexts(cols), " OR ") + rest == LikeText(cols[0]) + t1;
      LexLike(cols[0], t1);
      Keywords();
      LexKeyword("OR", KwOr, t2);
      LexSpace(tail);
      LexLikes(cols[1..], rest);
    }
  }

  lemma LexPart(c: Condition, rest: string)
    requires ColumnsOf(c) && Boundary(rest)
    ensures Lex(PartText(c) + rest) == PartTokens(c) + Lex(rest)
  {
    hide Lex, Classify, IsWord;
    match c
    case Eq(col, _) => LexEq(col, rest);
    case LikeAny(cols, q) =>
      var inner := Join(LikeTexts(cols), " OR ");
      assert PartText(c) + rest == ['('] + (inner + ([')'] + rest)) by { LikeAnyText(cols, q); }
      LexSym('(', inner + ([')'] + rest));
      LexLikes(cols, [')'] + rest);
      LexSym(')', rest);
    case IsNull(col) => LexNull(col, rest);
    case IsNotNull(col) => LexNotNull(col, rest);
  }

  lemma LexEq(col: string, rest: string)
    requires IsColumn(col)
    ensures Lex(col + " = ?" + rest) == [Word(col), Sym('='), Sym('?')] + Lex(rest)
  {
    hide Lex, Classify, IsWord;
    var t2 := [' '] + (['?'] + rest);
    var t1 := [' '] + (['='] + t2);
    assert col + " = ?" + rest == col + t1;
    LexWord(col, t1);
    LexSpace(['='] + t2);
    LexSym('=', t2);
    LexMark(rest);
  }

  lemma LexNull(col: string, rest: string)
    requires IsColumn(col) && Boundary(rest)
    ensures Lex(col + " IS NULL" + rest) == [Word(col), KwIs, KwNull] + Lex(rest)
  {
    hide Lex, Classify, IsWord;
    Keywords();
    var t2 := [' '] + ("NULL" + rest);
    var t1 := [' '] + ("IS" + t2);
    assert col + " IS NULL" + rest == col + t1;
    LexWord(col, t1);
    LexKeyword("IS", KwIs, t2);
    LexKeyword("NULL", KwNull, rest);
  }

  lemma LexNotNull(col: string, rest: string)
    requires IsColumn(col) && Boundary(rest)
    ensures Lex(col + " IS NOT NULL" + rest) == [Word(col), KwIs, KwNot, KwNull] + Lex(rest)
  {
    hide Lex, Classify, IsWord;
    Keywords();
    var t3 := [' '] + ("NULL" + rest);
    var t2 := [' '] + ("NOT" + t3);
    var t1 := [' '] + ("IS" + t2);
    assert col + " IS NOT NULL" + rest == col + t1;
    LexWord(col, t1);
    LexKeyword("IS", KwIs, t2);
    LexKeyword("NOT", KwNot, t3);
    LexKeyword("NULL", KwNull, rest);
  }

  lemma {:induction false} LexQuery(cs: seq<Condition>)
    requires forall c :: c in cs ==> ColumnsOf(c)
    ensures Lex(Query(cs)) == QueryTokens(cs)
    decreases |cs|
  {
    hide Lex, Classify, IsWord, ColumnsOf, PartText, PartTokens;
    if cs == [] {
      LexNothing();
    } else if |cs| == 1 {
      LexNothing();
      LexPart(cs[0], "");
      assert PartText(cs[0]) + "" == Query(cs);
    } else {
      assert PartTexts(cs)[1..] == PartTexts(cs[1..]);
      var tail := Query(cs[1..]);
      var t2 := [' '] + tail;
      var t1 := [' '] + ("AND" + t2);
      assert Query(cs) == PartText(cs[0]) + t1;
      LexPart(cs[0], t1);
      Keywords();
      LexKeyword("AND", KwAnd, t2);
      LexSpace(tail);
      LexQuery(cs[1..]);
    }
  }

  lemma LexNothing()
    ensures Lex("") == []
  {
  }

  // ---------- the expression of a query ----------

  function LikeTree(cols: seq<string>, n: nat): Expr
    requires cols != []
  {
    if |cols| == 1 then IsLike(cols[0], n) else Or(IsLike(cols[0], n), LikeTree(cols[1..], n + 1))
  }

  function PartTree(c: Condition, n: nat): Expr
    requires ColumnsOf(c)
  {
    match c
    case Eq(col, _) => IsEqual(col, n)
    case LikeAny(cols, _) => LikeTree(cols, n)
    case IsNull(col) => Absent(col)
    case IsNotNull(col) => Present(col)
  }

  function QueryTree(cs: seq<Condition>, n: nat): Expr
    requires cs != [] && forall c :: c in cs ==> ColumnsOf(c)
  {
    if |cs| == 1 then PartTree(cs[0], n) else And(PartTree(cs[0], n), QueryTree(cs[1..], n + |ArgsOf(cs[0])|))
  }

  lemma ParseTriple(ts: seq<Token>, more: seq<Token>, n: nat)
    requires |ts| == 3
    ensures (ts + more)[..3] == ts && (ts + more)[3..] == more
    ensures ts[0] == (ts + more)[0] && ts[1] == (ts + more)[1] && ts[2] == (ts + more)[2]
  {
  }

  lemma ParseLike(col: string, more: seq<Token>, n: nat)
    requires !Starts(more, KwAnd)
    ensures ParseAnd([Word(col), KwLike, Sym('?')] + more, n) == Some(Parsed(IsLike(col, n), more, n + 1))
  {
    ParseTriple([Word(col), KwLike, Sym('?')], more, n);
  }

  lemma {:induction false} ParseLikes(cols: seq<string>, rest: seq<Token>, n: nat)
    requires cols != []
    ensures ParseOr(LikeTokens(cols) + ([Sym(')')] + rest), n)
        == Some(Parsed(LikeTree(cols, n), [Sym(')')] + rest, n + |cols|))
    decreases |cols|
  {
    hide ParseAnd;
    var close := [Sym(')')] + rest;
    if |cols| == 1 {
      ParseLike(cols[0], close, n);
    } else {
      var more := LikeTokens(cols[1..]) + close;
      assert LikeTokens(cols) + close == [Word(cols[0]), KwLike, Sym('?')] + ([KwOr] + more);
      ParseLike(cols[0], [KwOr] + more, n);
      assert ([KwOr] + more)[1..] == more;
      ParseLikes(cols[1..], rest, n + 1);
    }
  }

  lemma ParseAnyLike(cols: seq<string>, rest: seq<Token>, n: nat)
    requires cols != []
    ensures ParseAtom([Sym('(')] + (LikeTokens(cols) + [Sym(')')]) + rest, n)
        == Some(Parsed(LikeTree(cols, n), rest, n + |cols|))
  {
    hide ParseOr, LikeTokens, LikeTree;
    var ts := [Sym('(')] + (LikeTokens(cols) + [Sym(')')]) + rest;
    assert ts[1..] == LikeTokens(cols) + ([Sym(')')] + rest);
    ParseLikes(cols, rest, n);
    assert ([Sym(')')] + rest)[1..] == rest;
  }

  lemma ParseSimple(c: Condition, rest: seq<Token>, n: nat)
    requires ColumnsOf(c) && !c.LikeAny?
    ensures ParseAtom(PartTokens(c) + rest, n) == Some(Parsed(PartTree(c, n), rest, n + |ArgsOf(c)|))
  {
    hide ParseOr, IsColumn;
    var ts := PartTokens(c) + rest;
    assert ts[0] == PartTokens(c)[0] && ts[1] == PartTokens(c)[1] && ts[2] == PartTokens(c)[2];
    assert c.IsNotNull? ==> ts[3] == PartTokens(c)[3];
    assert ts[|PartTokens(c)|..] == rest;
  }

  lemma ParsePart(c: Condition, rest: seq<Token>, n: nat)
    requires ColumnsOf(c)
    ensures ParseAtom(PartTokens(c) + rest, n) == Some(Parsed(PartTree(c, n), rest, n + |ArgsOf(c)|))
  {
    hide ParseAtom, LikeTokens, LikeTree;
    if c.LikeAny? {
      ParseAnyLike(c.cols, rest, n);
    } else {
      ParseSimple(c, rest, n);
    }
  }

  lemma {:induction false} ParseParts(cs: seq<Condition>, n: nat)
    requires cs != [] && forall c :: c in cs ==> ColumnsOf(c)
    ensures ParseAnd(QueryTokens(cs), n) == Some(Parsed(QueryTree(cs, n), [], n + |AllArgs(cs)|))
    decreases |cs|
  {
    hide ColumnsOf, PartTokens, PartTree, ParseAtom, ArgsOf;
    if |cs| == 1 {
      ParsePart(cs[0], [], n);
      assert PartTokens(cs[0]) + [] == QueryTokens(cs);
      assert AllArgs(cs[1..]) == [];
    } else {
      var more := QueryTokens(cs[1..]);
      assert QueryTokens(cs) == PartTokens(cs[0]) + ([KwAnd] + more);
      ParsePart(cs[0], [KwAnd] + more, n);
      assert ([KwAnd] + more)[1..] == more;
      ParseParts(cs[1..], n + |ArgsOf(cs[0])|);
    }
  }

  // ---------- what it evaluates to ----------

  lemma {:induction false} EvalLikes(cols: seq<string>, n: nat, args: seq<Value>, pattern: string, row: Row,
      like: Matcher)
    requires cols != [] && n + |cols| <= |args|
    requires forall i :: n <= i < n + |cols| ==> args[i] == Str(pattern)
    ensures Eval(LikeTree(cols, n), args, row, like)
      <==> exists i :: 0 <= i < |cols| && row(cols[i]).Str? && like(row(cols[i]).s, pattern)
    decreases |cols|
  {
    if |cols| > 1 {
      EvalLikes(cols[1..], n + 1, args, pattern, row, like);
      assert forall i :: 1 <= i < |cols| ==> cols[i] == cols[1..][i - 1];
    }
  }

  lemma EvalPart(c: Condition, n: nat, args: seq<Value>, row: Row, like: Matcher)
    requires ColumnsOf(c) && !Skipped(c)
    requires n + |ArgsOf(c)| <= |args| && args[n..n + |ArgsOf(c)|] == ArgsOf(c)
    ensures Eval(PartTree(c, n), args, row, like) <==> Holds(c, row, like)
  {
    hide IsColumn, Blank, Trim;
    assert forall i :: 0 <= i < |ArgsOf(c)| ==> args[n + i] == args[n..n + |ArgsOf(c)|][i] == ArgsOf(c)[i];
    match c
    case LikeAny(cols, q) =>
      assert forall i :: n <= i < n + |cols| ==> args[i] == ArgsOf(c)[i - n];
      EvalLikes(cols, n, args, Pattern(q), row, like);
    case _ =>
  }

  lemma {:induction false} EvalQuery(cs: seq<Condition>, n: nat, args: seq<Value>, row: Row, like: Matcher)
    requires cs != [] && forall c :: c in cs ==> ColumnsOf(c) && !Skipped(c)
    requires n + |AllArgs(cs)| <= |args| && args[n..n + |AllArgs(cs)|] == AllArgs(cs)
    ensures Eval(QueryTree(cs, n), args, row, like) <==> forall c :: c in cs ==> Holds(c, row, like)
    decreases |cs|
  {
    hide ColumnsOf, Skipped, PartTree, Holds, ArgsOf;
    var k, m := |ArgsOf(cs[0])|, |AllArgs(cs)|;
    assert AllArgs(cs) == ArgsOf(cs[0]) + AllArgs(cs[1..]);
    assert args[n..n + k] == args[n..n + m][..k] == ArgsOf(cs[0]);
    EvalPart(cs[0], n, args, row, like);
    if |cs| > 1 {
      assert args[n + k..n + k + |AllArgs(cs[1..])|] == args[n..n + m][k..] == AllArgs(cs[1..]);
      EvalQuery(cs[1..], n + k, args, row, like);
      assert cs == [cs[0]] + cs[1..];
    }
  }

  /** The columns a condition's arguments are given with. */
  function OwnColumns(c: Condition): (r: seq<string>)
    ensures |r| == |ArgsOf(c)|
  {
    match c
    case Eq(col, _) => [col]
    case LikeAny(cols, _) => cols
    case _ => []
  }

  function BoundColumns(cs: seq<Condition>): (r: seq<string>)
    ensures |r| == |AllArgs(cs)|
  {
    if cs == [] then [] else OwnColumns(cs[0]) + BoundColumns(cs[1..])
  }

  function Numbered(cols: seq<string>, n: nat): (r: seq<(string, nat)>)
    ensures |r| == |cols| && forall i :: 0 <= i < |r| ==> r[i] == (cols[i], n + i)
  {
    seq(|cols|, i requires 0 <= i < |cols| => (cols[i], n + i))
  }

  lemma {:induction false} LikePlaceholders(cols: seq<string>, n: nat)
    requires cols != []
    ensures Placeholders(LikeTree(cols, n)) == Numbered(cols, n)
    decreases |cols|
  {
    if |cols| > 1 {
      LikePlaceholders(cols[1..], n + 1);
      assert Numbered(cols, n) == [(cols[0], n)] + Numbered(cols[1..], n + 1);
    }
  }

  lemma PartPlaceholders(c: Condition, n: nat)
    requires ColumnsOf(c)
    ensures Placeholders(PartTree(c, n)) == Numbered(OwnColumns(c), n)
  {
    hide IsColumn;
    if c.LikeAny? { LikePlaceholders(c.cols, n); }
  }

  lemma NumberedAppend(a: seq<string>, b: seq<string>, n: nat)
    ensures Numbered(a + b, n) == Numbered(a, n) + Numbered(b, n + |a|)
  {
  }

  lemma {:induction false} QueryPlaceholders(cs: seq<Condition>, n: nat)
    requires cs != [] && forall c :: c in cs ==> ColumnsOf(c)
    ensures Placeholders(QueryTree(cs, n)) == Numbered(BoundColumns(cs), n)
    decreases |cs|
  {
    hide ColumnsOf, PartTree, Numbered, OwnColumns, ArgsOf;
    PartPlaceholders(cs[0], n);
    if |cs| > 1 {
      QueryPlaceholders(cs[1..], n + |ArgsOf(cs[0])|);
      NumberedAppend(OwnColumns(cs[0]), BoundColumns(cs[1..]), n);
    } else {
      assert cs[1..] == [] && BoundColumns(cs) == OwnColumns(cs[0]) + [];
    }
  }

  lemma QueryParses(cs: seq<Condition>)
    requires cs != [] && forall c :: c in cs ==> ColumnsOf(c)
    ensures Parse(Query(cs)) == Some((QueryTree(cs, 0), |AllArgs(cs)|))
  {
    hide ParseAnd, Lex, Query, QueryTokens, QueryTree, ColumnsOf, AllArgs;
    LexQuery(cs);
    ParseParts(cs, 0);
  }

  /** The query text reads back, with as many placeholders as arguments, the i-th
      one compared with the column the i-th argument was given with; on every row
      it is true exactly when every condition holds. */
  lemma QueryMeansConjunction(cs: seq<Condition>, row: Row, like: Matcher)
    requires cs != [] && forall c :: c in cs ==> ColumnsOf(c) && !Skipped(c)
    ensures var p := Parse(Query(cs));
      && p.Some? && p.value.1 == |AllArgs(cs)|
      && Placeholders(p.value.0) == Numbered(BoundColumns(cs), 0)
      && (Eval(p.value.0, AllArgs(cs), row, like) <==> forall c :: c in cs ==> Holds(c, row, like))
  {
    hide Parse, Query, QueryTree, ColumnsOf, Skipped, Holds, AllArgs, Eval, Placeholders, Numbered, BoundColumns;
    QueryParses(cs);
    QueryPlaceholders(cs, 0);
    assert AllArgs(cs)[0..0 + |AllArgs(cs)|] == AllArgs(cs);
    EvalQuery(cs, 0, AllArgs(cs), row, like);
  }

  // ---------- what a search finds ----------

  /** ILIKE on patterns without a backslash: `%` stands for any text, `_` for any
      character, and every other character for itself up to its case. */
  predicate Like(text: string, pattern: string, fold: char -> char) {
    if pattern == "" then text == ""
    else if pattern[0] == '%' then exists n :: 0 <= n <= |text| && Like(text[n..], pattern[1..], fold)
    else text != "" && (pattern[0] == '_' || fold(text[0]) == fold(pattern[0])) && Like(text[1..], pattern[1..], fold)
  }

  predicate SameFolded(a: string, b: string, fold: char -> char) {
    |a| == |b| && forall i :: 0 <= i < |a| ==> fold(a[i]) == fold(b[i])
  }

  predicate OccursAt(text: string, q: string, n: int, fold: char -> char) {
    0 <= n <= |text| - |q| && SameFolded(text[n..n + |q|], q, fold)
  }

  predicate Contains(text: string, q: string, fold: char -> char) {
    exists n :: 0 <= n <= |text| && OccursAt(text, q, n, fold)
  }

  predicate Plain(q: string) {
    '%' !in q && '_' !in q && '\\' !in q
  }

  lemma {:induction false} LikeFrom(text: string, q: string, fold: char -> char)
    requires Plain(q)
    ensures Like(text, q + ['%'], fold) <==> |q| <= |text| && SameFolded(text[..|q|], q, fold)
    decreases |q|
  {
    var pattern := q + ['%'];
    if q == "" {
      assert pattern[1..] == "";
      assert Like(text[|text|..], pattern[1..], fold);
    } else {
      assert pattern[1..] == q[1..] + ['%'];
      assert pattern[0] == q[0] != '%';
      LikeFrom(if text == "" then "" else text[1..], q[1..], fold);
      if |q| <= |text| {
        assert text[1..][..|q| - 1] == text[..|q|][1..];
        assert SameFolded(text[..|q|], q, fold)
            <==> fold(text[0]) == fold(q[0]) && SameFolded(text[..|q|][1..], q[1..], fold) by {
          SplitFolded(text[..|q|], q, fold);
        }
      }
    }
  }

  lemma SplitFolded(a: string, b: string, fold: char -> char)
    requires |a| == |b| > 0
    ensures SameFolded(a, b, fold) <==> fold(a[0]) == fold(b[0]) && SameFolded(a[1..], b[1..], fold)
  {
    assert forall i :: 1 <= i < |a| ==> a[i] == a[1..][i - 1] && b[i] == b[1..][i - 1];
  }

  lemma LikeContains(text: string, q: string, fold: char -> char)
    requires Plain(q)
    ensures Like(text, ['%'] + q + ['%'], fold) <==> Contains(text, q, fold)
  {
    var pattern := ['%'] + q + ['%'];
    assert pattern[1..] == q + ['%'];
    forall n | 0 <= n <= |text|
      ensures Like(text[n..], pattern[1..], fold) <==> OccursAt(text, q, n, fold)
    {
      LikeFrom(text[n..], q, fold);
      assert n <= |text| - |q| ==> text[n..][..|q|] == text[n..n + |q|];
    }
  }

  /** A search for a text without wildcards holds of a row exactly when one of
      the columns contains that text, trimmed and up to case. */
  lemma SearchFinds(cols: seq<string>, q: string, row: Row, fold: char -> char)
    requires Plain(q)
    ensures Holds(LikeAny(cols, q), row, (t, p) => Like(t, p, fold))
      <==> exists i :: 0 <= i < |cols| && row(cols[i]).Str? && Contains(row(cols[i]).s, Trim(q), fold)
  {
    hide Like, Contains;
    forall i | 0 <= i < |cols| && row(cols[i]).Str?
      ensures Like(row(cols[i]).s, ['%'] + Trim(q) + ['%'], fold) <==> Contains(row(cols[i]).s, Trim(q), fold)
    {
      LikeContains(row(cols[i]).s, Trim(q), fold);
    }
  }
}
