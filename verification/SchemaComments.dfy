/** stripSchemaComments: what is removed from a schema text and what is not. */
module SchemaComments {

  /** A line or block comment begins at i. */
  predicate Opens(text: string, i: nat) {
    i + 1 < |text| && text[i] == '/' && (text[i + 1] == '/' || text[i + 1] == '*')
  }

  predicate OpensLine(text: string, i: nat) {
    i + 1 < |text| && text[i] == '/' && text[i + 1] == '/'
  }

  predicate Closes(text: string, i: nat) {
    i + 1 < |text| && text[i] == '*' && text[i + 1] == '/'
  }

  function LineEnd(text: string, i: nat): (j: nat)
    requires i <= |text|
    ensures i <= j <= |text| && (j < |text| ==> text[j] == '\n')
    ensures forall k :: i <= k < j ==> text[k] != '\n'
    decreases |text| - i
  {
    if i < |text| && text[i] != '\n' then LineEnd(text, i + 1) else i
  }

  /** Where the scan of a block comment's inside stops: at its end marker, or one
      position before the end of the text. */
  function BlockStop(text: string, i: nat): (j: nat)
    requires i <= |text|
    ensures i <= j <= |text| && (j + 1 < |text| ==> Closes(text, j)) && (i < |text| ==> j < |text|)
    ensures forall k :: i <= k < j ==> k + 1 < |text| && !Closes(text, k)
    decreases |text| - i
  {
    if i + 1 < |text| && !Closes(text, i) then BlockStop(text, i + 1) else i
  }

  function Newlines(s: string): string {
    if s == "" then ""
    else Newlines(s[..|s| - 1]) + (if s[|s| - 1] == '\n' then "\n" else "")
  }

  /** The stripped form of text[i..]. */
  function Strip(text: string, i: nat): string
    requires i <= |text|
    decreases |text| - i
  {
    if i == |text| then ""
    else if OpensLine(text, i) then Strip(text, LineEnd(text, i + 1))
    else if Opens(text, i) then
      var j := BlockStop(text, i + 2);
      Newlines(text[i + 2..j]) + Strip(text, if j + 1 < |text| then j + 2 else j)
    else [text[i]] + Strip(text, i + 1)
  }

  /** The rest of a line comment. */
  method SkipLine(text: string, start: nat) returns (i: nat)
    requires start <= |text|
    ensures i == LineEnd(text, start)
  {
    i := start;
    while i < |text| && text[i] != '\n'
      invariant start <= i <= |text|
      invariant LineEnd(text, i) == LineEnd(text, start)
    {
      i := i + 1;
    }
  }

  /** The inside of a block comment, of which only the newlines are kept. */
  method SkipBlock(text: string, start: nat) returns (i: nat, kept: string)
    requires start <= |text|
    ensures i == BlockStop(text, start) && kept == Newlines(text[start..i])
  {
    i, kept := start, "";
    while i + 1 < |text| && !(text[i] == '*' && text[i + 1] == '/')
      invariant start <= i <= |text|
      invariant BlockStop(text, i) == BlockStop(text, start)
      invariant kept == Newlines(text[start..i])
    {
      assert text[start..i + 1][..i - start] == text[start..i];
      if text[i] == '\n' {
        kept := kept + "\n";
      }
      i := i + 1;
    }
  }

  method StripSchemaComments(text: string) returns (out: string)
    ensures out == Strip(text, 0)
  {
    hide BlockStop, LineEnd, Newlines;
    out := "";
    var i := 0;
    while i < |text|
      invariant 0 <= i <= |text|
      invariant out + Strip(text, i) == Strip(text, 0)
    {
      if i + 1 < |text| && text[i] == '/' && text[i + 1] == '/' {
        i := SkipLine(text, i + 1);
      } else if i + 1 < |text| && text[i] == '/' && text[i + 1] == '*' {
        var j, kept := SkipBlock(text, i + 2);
        var next := if j + 1 < |text| then j + 2 else j;
        assert out + (kept + Strip(text, next)) == (out + kept) + Strip(text, next);
        i, out := next, out + kept;
      } else {
        assert out + ([text[i]] + Strip(text, i + 1)) == (out + [text[i]]) + Strip(text, i + 1);
        i, out := i + 1, out + [text[i]];
      }
    }
  }

  // ---------- no comment opener survives ----------

  ghost predicate CommentFree(s: string) {
    forall i: nat :: !Opens(s, i)
  }

  lemma {:induction false} NewlinesOnly(s: string)
    ensures forall c :: c in Newlines(s) ==> c == '\n'
  {
    if s != "" {
      NewlinesOnly(s[..|s| - 1]);
    }
  }

  lemma NewlinesThenFree(a: string, b: string)
    requires (forall c :: c in a ==> c == '\n') && CommentFree(b)
    ensures CommentFree(a + b)
  {
    forall i: nat
      ensures !Opens(a + b, i)
    {
      if i < |a| {
        assert (a + b)[i] == a[i] && a[i] in a;
      } else {
        assert !Opens(b, i - |a|);
      }
    }
  }

  lemma ConsFree(c: char, s: string)
    requires CommentFree(s) && (c == '/' && s != "" ==> s[0] != '/' && s[0] != '*')
    ensures CommentFree([c] + s)
  {
    forall i: nat
      ensures !Opens([c] + s, i)
    {
      if i > 0 {
        assert !Opens(s, i - 1);
      }
    }
  }

  /** Whatever the text, even with unterminated comments. */
  lemma {:induction false} StrippedIsFree(text: string, i: nat)
    requires i <= |text|
    ensures CommentFree(Strip(text, i))
    decreases |text| - i
  {
    if i == |text| {
    } else if OpensLine(text, i) {
      StrippedIsFree(text, LineEnd(text, i + 1));
    } else if Opens(text, i) {
      var j := BlockStop(text, i + 2);
      var next := if j + 1 < |text| then j + 2 else j;
      NewlinesOnly(text[i + 2..j]);
      StrippedIsFree(text, next);
      NewlinesThenFree(Newlines(text[i + 2..j]), Strip(text, next));
    } else {
      StrippedIsFree(text, i + 1);
      if text[i] == '/' && i + 1 < |text| {
        assert text[i + 1] != '/';
        assert Strip(text, i + 1) == [text[i + 1]] + Strip(text, i + 2);
      }
      ConsFree(text[i], Strip(text, i + 1));
    }
  }

  lemma {:induction false} FreeIsUnchanged(text: string, i: nat)
    requires i <= |text| && CommentFree(text)
    ensures Strip(text, i) == text[i..]
    decreases |text| - i
  {
    if i < |text| {
      assert !Opens(text, i);
      FreeIsUnchanged(text, i + 1);
      assert text[i..] == [text[i]] + text[i + 1..];
    }
  }

  /** Stripping changes a text exactly when it has a comment opener, and a second
      time never. */
  lemma StripIdempotent(text: string)
    ensures Strip(text, 0) == text <==> CommentFree(text)
    ensures Strip(Strip(text, 0), 0) == Strip(text, 0)
  {
    var out := Strip(text, 0);
    StrippedIsFree(text, 0);
    FreeIsUnchanged(out, 0);
    assert out[0..] == out;
    if CommentFree(text) {
      FreeIsUnchanged(text, 0);
    }
  }

  // ---------- lines ----------

  /** The output is the input with only characters other than newline removed. */
  ghost predicate Thins(text: string, out: string)
    decreases |text|
  {
    if text == "" then out == ""
    else
      || (out != "" && out[0] == text[0] && Thins(text[1..], out[1..]))
      || (text[0] != '\n' && Thins(text[1..], out))
  }

  lemma {:induction false} ThinsDropping(text: string, n: nat, out: string)
    requires n <= |text| && forall k :: 0 <= k < n ==> text[k] != '\n'
    requires Thins(text[n..], out)
    ensures Thins(text, out)
    decreases n
  {
    if n > 0 {
      assert text[1..][n - 1..] == text[n..];
      ThinsDropping(text[1..], n - 1, out);
    } else {
      assert text[0..] == text;
    }
  }

  lemma {:induction false} ThinsKeepingNewlines(head: string, text: string, out: string)
    requires Thins(text, out)
    ensures Thins(head + text, Newlines(head) + out)
    decreases |head|
  {
    if head == "" {
      assert head + text == text && Newlines(head) + out == out;
    } else {
      var n := |head| - 1;
      var c := head[n];
      var keep := if c == '\n' then "\n" else "";
      assert ([c] + text)[1..] == text;
      if c == '\n' {
        assert ("\n" + out)[1..] == out;
      } else {
        assert keep + out == out;
      }
      assert Thins([c] + text, keep + out);
      ThinsKeepingNewlines(head[..n], [c] + text, keep + out);
      assert head[..n] + ([c] + text) == head + text;
      assert Newlines(head[..n]) + (keep + out) == Newlines(head) + out;
    }
  }

  lemma {:induction false} StripThins(text: string, i: nat)
    requires i <= |text|
    ensures Thins(text[i..], Strip(text, i))
    decreases |text| - i
  {
    if i == |text| {
    } else if OpensLine(text, i) {
      var j := LineEnd(text, i + 1);
      StripThins(text, j);
      assert text[i..][j - i..] == text[j..];
      ThinsDropping(text[i..], j - i, Strip(text, j));
    } else if Opens(text, i) {
      BlockThins(text, i);
    } else {
      StripThins(text, i + 1);
      assert text[i..][1..] == text[i + 1..];
      assert ([text[i]] + Strip(text, i + 1))[1..] == Strip(text, i + 1);
    }
  }

  lemma {:induction false} BlockThins(text: string, i: nat)
    requires i < |text| && Opens(text, i) && !OpensLine(text, i)
    ensures Thins(text[i..], Strip(text, i))
    decreases |text| - i, 0
  {
    hide Newlines, Thins;
    var j := BlockStop(text, i + 2);
    var next := if j + 1 < |text| then j + 2 else j;
    StripThins(text, next);
    assert text[j..][next - j..] == text[next..];
    ThinsDropping(text[j..], next - j, Strip(text, next));
    ThinsKeepingNewlines(text[i + 2..j], text[j..], Strip(text, next));
    assert text[i..][2..] == text[i + 2..];
    assert text[i + 2..j] + text[j..] == text[i + 2..];
    ThinsDropping(text[i..], 2, Strip(text, i));
  }

  function Lines(s: string): (lines: seq<string>)
    ensures |lines| > 0
  {
    if s == "" then [""]
    else
      var rest := Lines(s[1..]);
      if s[0] == '\n' then [""] + rest else [[s[0]] + rest[0]] + rest[1..]
  }

  ghost predicate Subsequence(a: string, b: string)
    decreases |b|
  {
    || a == ""
    || (b != "" && ((a[0] == b[0] && Subsequence(a[1..], b[1..])) || Subsequence(a, b[1..])))
  }

  ghost predicate LineByLine(a: seq<string>, b: seq<string>) {
    |a| == |b| && forall k :: 0 <= k < |a| ==> Subsequence(a[k], b[k])
  }

  lemma {:induction false} ThinsLineByLine(text: string, out: string)
    requires Thins(text, out)
    ensures LineByLine(Lines(out), Lines(text))
    decreases |text|
  {
    if text != "" {
      var rest := Lines(text[1..]);
      if out != "" && out[0] == text[0] && Thins(text[1..], out[1..]) {
        ThinsLineByLine(text[1..], out[1..]);
        if text[0] != '\n' {
          assert ([out[0]] + Lines(out[1..])[0])[1..] == Lines(out[1..])[0];
          assert ([text[0]] + rest[0])[1..] == rest[0];
        }
      } else {
        ThinsLineByLine(text[1..], out);
        assert ([text[0]] + rest[0])[1..] == rest[0];
      }
    }
  }

  /** Stripping keeps the number of lines, and every output line is a subsequence
      of the input line with the same number. */
  lemma StripKeepsLines(text: string)
    ensures LineByLine(Lines(Strip(text, 0)), Lines(text))
  {
    assert text[0..] == text;
    StripThins(text, 0);
    ThinsLineByLine(text, Strip(text, 0));
  }

  // ---------- unterminated block comments ----------

  /** A block comment without end marker swallows everything but its newlines,
      except that the last character of the text always survives. */
  lemma UnterminatedBlock(text: string, i: nat)
    requires Opens(text, i) && !OpensLine(text, i)
    requires forall k :: i + 2 <= k ==> !Closes(text, k)
    ensures Strip(text, i) == if i + 2 == |text| then ""
                              else Newlines(text[i + 2..|text| - 1]) + [text[|text| - 1]]
  {
    var j := BlockStop(text, i + 2);
    if i + 2 < |text| {
      assert !Closes(text, j);
      assert j == |text| - 1;
      assert Strip(text, j) == [text[j]] + Strip(text, j + 1);
    }
  }

  /** A terminated one leaves its newlines only. */
  lemma TerminatedBlock(text: string, i: nat, j: nat)
    requires Opens(text, i) && !OpensLine(text, i)
    requires i + 2 <= j && Closes(text, j) && forall k :: i + 2 <= k < j ==> !Closes(text, k)
    ensures Strip(text, i) == Newlines(text[i + 2..j]) + Strip(text, j + 2)
  {
    assert BlockStop(text, i + 2) == j;
  }

  /** Any block comment leaves its newlines; the text behind its end marker
      follows, or, when it has none, the last character of the text leaks. */
  lemma BlockCommentLeaves(text: string, i: nat)
    requires Opens(text, i) && !OpensLine(text, i)
    ensures var j := BlockStop(text, i + 2);
      if Closes(text, j) then Strip(text, i) == Newlines(text[i + 2..j]) + Strip(text, j + 2)
      else Strip(text, i) == Newlines(text[i + 2..j]) + text[j..]
    ensures Closes(text, BlockStop(text, i + 2)) <==> exists k :: i + 2 <= k && Closes(text, k)
  {
    hide Strip;
    var j := BlockStop(text, i + 2);
    if Closes(text, j) {
      TerminatedBlock(text, i, j);
    } else {
      UnterminatedBlock(text, i);
      if i + 2 < |text| {
        assert text[j..] == [text[|text| - 1]];
      }
    }
  }

  /** Text without a comment opener stays, whatever follows it. */
  lemma {:induction false} CodeStays(text: string, i: nat, k: nat)
    requires i <= k <= |text| && forall m :: i <= m < k ==> !Opens(text, m)
    ensures Strip(text, i) == text[i..k] + Strip(text, k)
    decreases k - i
  {
    if i < k {
      CodeStays(text, i + 1, k);
      assert text[i..k] == [text[i]] + text[i + 1..k];
    }
  }

  /** A line comment goes up to the end of its line, and the line break stays. */
  lemma LineCommentLeaves(text: string, i: nat, j: nat)
    requires OpensLine(text, i) && i <= j <= |text|
    requires '\n' !in text[i..j] && (j < |text| ==> text[j] == '\n')
    ensures Strip(text, i) == if j < |text| then ['\n'] + Strip(text, j + 1) else ""
  {
    var k := LineEnd(text, i + 1);
    assert forall m :: i <= m < j ==> text[m] == text[i..j][m - i];
    assert k == j;
  }
}
