/** The shapes of the code's append loops: skip some elements and convert the
    rest, or keep the first element of each key. */
module Sequences {

  ghost function Collect<T, U>(input: seq<T>, skip: T -> bool, convert: T -> U): seq<U> {
    if input == [] then []
    else
      var n := |input| - 1;
      Collect(input[..n], skip, convert) + (if skip(input[n]) then [] else [convert(input[n])])
  }

  /** One step of the loop. */
  lemma CollectStep<T, U>(input: seq<T>, i: nat, skip: T -> bool, convert: T -> U)
    requires i < |input|
    ensures Collect(input[..i + 1], skip, convert)
         == Collect(input[..i], skip, convert) + (if skip(input[i]) then [] else [convert(input[i])])
  {
    assert input[..i + 1][..i] == input[..i];
  }

  lemma {:induction false} CollectMember<T, U>(input: seq<T>, y: U, skip: T -> bool, convert: T -> U)
    ensures y in Collect(input, skip, convert) <==> exists x :: x in input && !skip(x) && convert(x) == y
  {
    if input != [] {
      var n := |input| - 1;
      CollectMember(input[..n], y, skip, convert);
      assert input == input[..n] + [input[n]];
    }
  }

  lemma {:induction false} CollectStable<T>(input: seq<T>, skip: T -> bool, convert: T -> T)
    requires forall x :: x in input ==> !skip(x) && convert(x) == x
    ensures Collect(input, skip, convert) == input
  {
    if input != [] {
      var n := |input| - 1;
      CollectStable(input[..n], skip, convert);
      assert input == input[..n] + [input[n]];
    }
  }

  /** Collecting twice with an idempotent conversion changes nothing the second
      time unless a kept element is skipped once converted. */
  lemma {:induction false} CollectTwice<T>(input: seq<T>, skip: T -> bool, convert: T -> T)
    requires forall x :: x in input ==> convert(convert(x)) == convert(x)
    ensures var once := Collect(input, skip, convert);
      && |Collect(once, skip, convert)| <= |once|
      && (Collect(once, skip, convert) == once
          <==> forall x :: x in input && !skip(x) ==> !skip(convert(x)))
  {
    if input != [] {
      var n := |input| - 1;
      var init, once := Collect(input[..n], skip, convert), Collect(input, skip, convert);
      CollectTwice(input[..n], skip, convert);
      assert input == input[..n] + [input[n]];
      if !skip(input[n]) {
        assert once[..|init|] == init;
        var again := Collect(once, skip, convert);
        assert again == Collect(init, skip, convert) + (if skip(convert(input[n])) then [] else [convert(input[n])]);
        if again == once && !skip(convert(input[n])) {
          assert Collect(init, skip, convert) == again[..|again| - 1];
        }
      } else {
        assert once == init;
      }
    }
  }

  /** Position i holds the first element that is not skipped and has its key. */
  ghost predicate FirstOfKey<T, K>(input: seq<T>, i: nat, skip: T -> bool, key: T -> K)
    requires i < |input|
  {
    && !skip(input[i])
    && forall j :: 0 <= j < i && !skip(input[j]) ==> key(input[j]) != key(input[i])
  }

  ghost function KeysSeen<T, K>(input: seq<T>, skip: T -> bool, key: T -> K): set<K> {
    set x | x in input && !skip(x) :: key(x)
  }

  ghost function KeepFirst<T, K>(input: seq<T>, skip: T -> bool, key: T -> K): seq<T> {
    if input == [] then []
    else
      var n := |input| - 1;
      var kept := KeepFirst(input[..n], skip, key);
      if FirstOfKey(input, n, skip, key) then kept + [input[n]] else kept
  }

  /** One step of the loop. */
  lemma KeepFirstStep<T, K>(input: seq<T>, i: nat, skip: T -> bool, key: T -> K)
    requires i < |input|
    ensures var unseen := !skip(input[i]) && key(input[i]) !in KeysSeen(input[..i], skip, key);
      && KeepFirst(input[..i + 1], skip, key)
         == KeepFirst(input[..i], skip, key) + (if unseen then [input[i]] else [])
      && KeysSeen(input[..i + 1], skip, key)
         == KeysSeen(input[..i], skip, key) + (if unseen then {key(input[i])} else {})
  {
    assert input[..i + 1][..i] == input[..i];
    assert input[..i + 1] == input[..i] + [input[i]];
    var seen := KeysSeen(input[..i], skip, key);
    if !skip(input[i]) && key(input[i]) in seen {
      var x :| x in input[..i] && !skip(x) && key(x) == key(input[i]);
      var j :| 0 <= j < i && input[..i][j] == x;
      assert input[..i + 1][j] == x;
    } else if !skip(input[i]) {
      assert forall j :: 0 <= j < i && !skip(input[j]) ==> input[j] in input[..i];
    }
  }

  /** The output lists, in order, exactly the positions that are first of their key. */
  lemma {:induction false} KeepFirstOrder<T, K>(input: seq<T>, skip: T -> bool, key: T -> K) returns (at: seq<nat>)
    ensures |at| == |KeepFirst(input, skip, key)|
    ensures forall k :: 0 <= k < |at| ==> at[k] < |input| && KeepFirst(input, skip, key)[k] == input[at[k]]
    ensures forall k, l :: 0 <= k < l < |at| ==> at[k] < at[l]
    ensures forall i: nat :: i in at <==> i < |input| && FirstOfKey(input, i, skip, key)
    decreases |input|
  {
    if input == [] {
      at := [];
    } else {
      var n := |input| - 1;
      at := KeepFirstOrder(input[..n], skip, key);
      assert forall i :: 0 <= i < n ==> (FirstOfKey(input, i, skip, key) <==> FirstOfKey(input[..n], i, skip, key));
      if FirstOfKey(input, n, skip, key) {
        at := at + [n];
      }
    }
  }

  lemma {:induction false} FirstOfKeyExists<T, K>(input: seq<T>, i: nat, skip: T -> bool, key: T -> K) returns (j: nat)
    requires i < |input| && !skip(input[i])
    ensures j <= i && FirstOfKey(input, j, skip, key) && key(input[j]) == key(input[i])
    decreases i
  {
    if FirstOfKey(input, i, skip, key) {
      j := i;
    } else {
      var k :| 0 <= k < i && !skip(input[k]) && key(input[k]) == key(input[i]);
      j := FirstOfKeyExists(input, k, skip, key);
    }
  }

  /** Nothing skipped is kept, and no key is kept twice. */
  lemma KeepFirstSound<T, K>(input: seq<T>, skip: T -> bool, key: T -> K)
    ensures forall x :: x in KeepFirst(input, skip, key) ==> x in input && !skip(x)
    ensures forall k, l :: 0 <= k < l < |KeepFirst(input, skip, key)| ==>
      key(KeepFirst(input, skip, key)[k]) != key(KeepFirst(input, skip, key)[l])
  {
    var out := KeepFirst(input, skip, key);
    var at := KeepFirstOrder(input, skip, key);
    forall k | 0 <= k < |out|
      ensures out[k] in input && !skip(out[k])
    {
      assert at[k] in at;
    }
    forall k, l | 0 <= k < l < |out|
      ensures key(out[k]) != key(out[l])
    {
      assert at[k] in at && at[l] in at;
    }
  }

  /** Every key that occurs unskipped is represented. */
  lemma KeepFirstComplete<T, K>(input: seq<T>, x: T, skip: T -> bool, key: T -> K) returns (o: T)
    requires x in input && !skip(x)
    ensures o in KeepFirst(input, skip, key) && o in input && !skip(o) && key(o) == key(x)
  {
    var at := KeepFirstOrder(input, skip, key);
    var i :| 0 <= i < |input| && input[i] == x;
    var j := FirstOfKeyExists(input, i, skip, key);
    assert j in at;
    var k :| 0 <= k < |at| && at[k] == j;
    o := KeepFirst(input, skip, key)[k];
  }

  ghost predicate KeysSeparate<T, K>(input: seq<T>, skip: T -> bool, key: T -> K) {
    forall a, b :: a in input && b in input && !skip(a) && !skip(b) && key(a) == key(b) ==> a == b
  }

  ghost function Unskipped<T>(input: seq<T>, skip: T -> bool): set<T> {
    set x | x in input && !skip(x)
  }

  /** Nothing is lost exactly when the keys tell the input elements apart. */
  lemma KeepFirstExact<T, K>(input: seq<T>, skip: T -> bool, key: T -> K)
    ensures (set x | x in KeepFirst(input, skip, key)) == Unskipped(input, skip) <==> KeysSeparate(input, skip, key)
  {
    KeepFirstSound(input, skip, key);
    var out := KeepFirst(input, skip, key);
    if KeysSeparate(input, skip, key) {
      forall x | x in Unskipped(input, skip)
        ensures x in out
      {
        var o := KeepFirstComplete(input, x, skip, key);
      }
    }
    if (set x | x in out) == Unskipped(input, skip) {
      forall a, b | a in input && b in input && !skip(a) && !skip(b) && key(a) == key(b)
        ensures a == b
      {
        assert a in Unskipped(input, skip) && b in Unskipped(input, skip);
        var k :| 0 <= k < |out| && out[k] == a;
        var l :| 0 <= l < |out| && out[l] == b;
      }
    }
  }

  /** Input with nothing to skip and no repeated key is returned unchanged. */
  lemma {:induction false} KeepFirstStable<T, K>(input: seq<T>, skip: T -> bool, key: T -> K)
    requires forall x :: x in input ==> !skip(x)
    requires forall k, l :: 0 <= k < l < |input| ==> key(input[k]) != key(input[l])
    ensures KeepFirst(input, skip, key) == input
    decreases |input|
  {
    if input != [] {
      var n := |input| - 1;
      KeepFirstStable(input[..n], skip, key);
      assert input == input[..n] + [input[n]];
    }
  }

  lemma CardDifference<T>(s: set<T>, t: set<T>)
    requires t <= s
    ensures |s - t| == |s| - |t|
  {
    assert s == t + (s - t);
  }
}
