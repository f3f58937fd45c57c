/** Strings as the Go code sees them: white space, trimming, and the small
    searches that several packages share. */
module Text {

  datatype Option<+T> = None | Some(value: T)

  /** unicode.IsSpace */
  predicate IsSpace(c: char) {
    || '\t' <= c <= '\r'
    || c == ' '
    || c == '\U{0085}'
    || c == '\U{00A0}'
    || c == '\U{1680}'
    || '\U{2000}' <= c <= '\U{200A}'
    || c == '\U{2028}'
    || c == '\U{2029}'
    || c == '\U{202F}'
    || c == '\U{205F}'
    || c == '\U{3000}'
  }

  predicate Trimmed(s: string) {
    s == "" || (!IsSpace(s[0]) && !IsSpace(s[|s| - 1]))
  }

  predicate Blank(s: string) {
    s == "" || (IsSpace(s[0]) && forall i :: 0 <= i < |s| ==> IsSpace(s[i]))
  }

  function TrimLeft(s: string): (r: string)
    ensures r == "" || !IsSpace(r[0])
    ensures |r| <= |s|
    ensures r == "" <==> Blank(s)
  {
    if s != "" && IsSpace(s[0]) then
      assert Blank(s) <==> Blank(s[1..]) by {
        assert s == [s[0]] + s[1..];
      }
      TrimLeft(s[1..])
    else s
  }

  function TrimRight(s: string): (r: string)
    ensures r == "" || !IsSpace(r[|r| - 1])
    ensures |r| <= |s|
  {
    if s != "" && IsSpace(s[|s| - 1]) then TrimRight(s[..|s| - 1]) else s
  }

  /** strings.TrimSpace */
  function Trim(s: string): (r: string)
    ensures Trimmed(r)
    ensures Trimmed(s) ==> r == s
    ensures r == "" <==> Blank(s)
    ensures forall c :: c in r ==> c in s
  {
    var t := TrimLeft(s);
    var r := TrimRight(t);
    assert t != "" ==> r != "" && r[0] == t[0] by { if t != "" { TrimRightKeepsHead(t); } }
    assert forall c :: c in r ==> c in s by {
      TrimLeftIsSuffix(s);
      TrimRightIsPrefix(t);
    }
    r
  }

  lemma {:induction false} TrimLeftIsSuffix(s: string)
    ensures TrimLeft(s) == s[|s| - |TrimLeft(s)|..]
  {
    if s != "" && IsSpace(s[0]) {
      TrimLeftIsSuffix(s[1..]);
    }
  }

  lemma {:induction false} TrimRightIsPrefix(s: string)
    ensures TrimRight(s) == s[..|TrimRight(s)|]
  {
    if s != "" && IsSpace(s[|s| - 1]) {
      TrimRightIsPrefix(s[..|s| - 1]);
    }
  }

  lemma {:induction false} TrimRightKeepsHead(s: string)
    requires s != "" && !IsSpace(s[0])
    ensures TrimRight(s) != "" && TrimRight(s)[0] == s[0]
  {
    if IsSpace(s[|s| - 1]) {
      TrimRightKeepsHead(s[..|s| - 1]);
    }
  }

  lemma TrimNotBlank(s: string)
    requires !Blank(s)
    ensures !Blank(Trim(s))
  {
    assert Trim(s) != "";
  }

  /** firstNonEmpty: the first argument that is not blank, trimmed. */
  function FirstNonEmpty(a: string, b: string): (r: string)
    ensures Trimmed(r)
    ensures r == "" <==> Blank(a) && Blank(b)
    ensures forall c :: c in r ==> c in a || c in b
  {
    if !Blank(a) then Trim(a) else Trim(b)
  }

  /** strings.HasSuffix */
  predicate HasSuffix(s: string, suffix: string) {
    |suffix| <= |s| && s[|s| - |suffix|..] == suffix
  }

  lemma {:induction false} TrimLeftKeepsTail(head: string, tail: string)
    requires exists i :: 0 <= i < |head| && !IsSpace(head[i])
    ensures |TrimLeft(head + tail)| >= |tail| && HasSuffix(TrimLeft(head + tail), tail)
    decreases |head|
  {
    var s := head + tail;
    if IsSpace(head[0]) {
      var i :| 0 <= i < |head| && !IsSpace(head[i]);
      assert head[1..][i - 1] == head[i];
      assert s[1..] == head[1..] + tail;
      TrimLeftKeepsTail(head[1..], tail);
    }
  }

  /** Trimming a text that has a visible character before a visible ending
      never touches that ending. */
  lemma TrimKeepsSuffix(head: string, tail: string)
    requires exists i :: 0 <= i < |head| && !IsSpace(head[i])
    requires tail != "" && !IsSpace(tail[|tail| - 1])
    ensures HasSuffix(Trim(head + tail), tail)
  {
    TrimLeftKeepsTail(head, tail);
    var t := TrimLeft(head + tail);
    assert t[|t| - 1] == tail[|tail| - 1];
  }

  /** A separator that occurs in neither left part splits a text in one way only. */
  lemma SplitUnique(a: string, x: string, b: string, y: string, sep: char)
    requires sep !in a && sep !in b
    requires a + [sep] + x == b + [sep] + y
    ensures a == b && x == y
  {
    var s := a + [sep] + x;
    assert forall i :: 0 <= i < |a| ==> s[i] == a[i];
    assert forall i :: 0 <= i < |b| ==> s[i] == b[i];
    assert s[|a|] == sep && s[|b|] == sep;
    assert a == s[..|a|] == b;
    assert x == s[|a| + 1..] == y;
  }
}
