/** Page tokens and slices in 64-bit integers: what a client sees that starts
    with the empty token and follows each next-page token, and what any other
    token gives. */
module Paging {
  import opened Text

  datatype Page<T> = Page(items: seq<T>, total: nat, page: int, size: int, hasMore: bool)

  const MAX_SIZE: nat := 100

  // ---------- machine integers ----------

  const TWO_63 := 0x8000_0000_0000_0000
  const TWO_64 := 0x1_0000_0000_0000_0000
  const MAX_INT := TWO_63 - 1
  const MIN_INT := -TWO_63

  predicate IsInt(x: int) {
    MIN_INT <= x <= MAX_INT
  }

  /** The value an int holds after an operation whose exact result is x. */
  function Wrap(x: int): (r: int)
    ensures IsInt(r)
    ensures IsInt(x) ==> r == x
  {
    (x + TWO_63) % TWO_64 - TWO_63
  }

  lemma WrapTurns(x: int, turns: int)
    requires IsInt(x - turns * TWO_64)
    ensures Wrap(x) == x - turns * TWO_64
  {
    assert (x + TWO_63) % TWO_64 == x - turns * TWO_64 + TWO_63;
  }

  function Min(a: int, b: int): (m: int)
    ensures m <= a && m <= b && (m == a || m == b)
  {
    if a > b then b else a
  }

  function Max(a: int, b: int): (m: int)
    ensures m >= a && m >= b && (m == a || m == b)
  {
    if a > b then a else b
  }

  // ---------- decimal numbers ----------

  predicate IsDigit(c: char) {
    '0' <= c <= '9'
  }

  function DigitOf(n: nat): (c: char)
    requires n < 10
    ensures IsDigit(c) && c as int - '0' as int == n
  {
    (n + '0' as int) as char
  }

  function Digits(n: nat): (s: string)
    ensures s != "" && forall c :: c in s ==> IsDigit(c)
  {
    if n < 10 then [DigitOf(n)] else Digits(n / 10) + [DigitOf(n % 10)]
  }

  /** strconv.Itoa */
  function Itoa(n: int): string {
    if n < 0 then "-" + Digits(-n) else Digits(n)
  }

  datatype Scan = Number(n: nat) | Malformed | TooLarge

  /** The digits read so far are worth n. Reading stops at the first character
      that is no digit, or at the first digit that no unsigned 64-bit number
      has room for, whatever follows it. */
  function ScanDigits(s: string, n: nat): Scan {
    if s == "" then Number(n)
    else if !IsDigit(s[0]) then Malformed
    else
      var next := 10 * n + (s[0] as int - '0' as int);
      if next >= TWO_64 then TooLarge else ScanDigits(s[1..], next)
  }

  /** strconv.Atoi without its error: 0 for a malformed number, the nearest int
      for one that is out of range. */
  function Atoi(s: string): (r: int)
    ensures IsInt(r)
  {
    var signed := s != "" && (s[0] == '+' || s[0] == '-');
    var negative := signed && s[0] == '-';
    var digits := if signed then s[1..] else s;
    if digits == "" then 0
    else
      match ScanDigits(digits, 0)
      case Malformed => 0
      case TooLarge => if negative then MIN_INT else MAX_INT
      case Number(n) => if negative then Max(MIN_INT, 0 - n) else Min(n, MAX_INT)
  }

  lemma {:induction false} ScanMore(s: string, c: char, n: nat)
    requires IsDigit(c) && ScanDigits(s, n).Number?
    ensures var next := 10 * ScanDigits(s, n).n + (c as int - '0' as int);
      ScanDigits(s + [c], n) == if next >= TWO_64 then TooLarge else Number(next)
    decreases |s|
  {
    if s == "" {
      assert ([c] + "")[1..] == "" && s + [c] == [c];
      assert [c][1..] == "";
    } else {
      assert (s + [c])[1..] == s[1..] + [c];
      ScanMore(s[1..], c, 10 * n + (s[0] as int - '0' as int));
    }
  }

  lemma {:induction false} ScanOfDigits(n: nat)
    requires n < TWO_64
    ensures ScanDigits(Digits(n), 0) == Number(n)
  {
    if n >= 10 {
      ScanOfDigits(n / 10);
      ScanMore(Digits(n / 10), DigitOf(n % 10), 0);
    } else {
      assert [DigitOf(n)][1..] == "";
    }
  }

  /** Every int survives being written and read back. */
  lemma AtoiOfItoa(n: int)
    requires IsInt(n)
    ensures Atoi(Itoa(n)) == n
  {
    var s := Itoa(n);
    if n < 0 {
      ScanOfDigits(-n);
      assert s[1..] == Digits(-n);
    } else {
      ScanOfDigits(n);
      assert s[0] in s;
    }
  }

  // ---------- pages ----------

  function PageFromToken(token: string): (page: int)
    ensures 1 <= page <= MAX_INT
  {
    if Atoi(token) <= 0 then 1 else Atoi(token)
  }

  function NextPage<T>(p: Page<T>): string {
    if p.hasMore then Itoa(Wrap(p.page + 1)) else ""
  }

  /** The page size that is used for a list of n items. */
  function PageSize(n: nat, size: int): (r: int)
    ensures 1 <= r <= MAX_SIZE
  {
    var wanted := if size > 0 then size else if n == 0 then 100 else n;
    if wanted > MAX_SIZE then MAX_SIZE else wanted
  }

  /** A list that leaves room in an int for the end of one more page. */
  predicate HasRoom<T>(items: seq<T>) {
    |items| + MAX_SIZE <= MAX_INT
  }

  /** None when slicing the list panics. */
  function PageOf<T>(items: seq<T>, page: int, size: int): (p: Option<Page<T>>)
    requires HasRoom(items) && IsInt(page)
    ensures p.Some? ==> 1 <= p.value.page <= MAX_INT
  {
    var number := if page <= 0 then 1 else page;
    var step := PageSize(|items|, size);
    var start := Min(Wrap((number - 1) * step), |items|);
    var end := Min(Wrap(start + step), |items|);
    if 0 <= start <= end then Some(Page(items[start..end], |items|, number, step, end < |items|)) else None
  }

  /** What page `page` of a list is. */
  function Intended<T>(items: seq<T>, page: int, step: int): seq<T>
    requires page >= 1 && step >= 1
  {
    Nonnegative(page - 1, step);
    var start := Min((page - 1) * step, |items|);
    items[start..Min(start + step, |items|)]
  }

  lemma Nonnegative(a: int, b: int)
    requires a >= 0 && b >= 0
    ensures a * b >= 0
  {
  }

  /** A page number yields a slice exactly when the product that gives its start
      has not become negative in an int, and that slice is the intended page
      exactly when the product fits, or at least lands beyond the list. */
  lemma SliceIff<T>(items: seq<T>, page: int, size: int)
    requires HasRoom(items) && 1 <= page <= MAX_INT
    ensures var step := PageSize(|items|, size);
      var product := (page - 1) * step;
      && (PageOf(items, page, size).Some? <==> Wrap(product) >= 0)
      && (PageOf(items, page, size).Some? ==>
            (var shown := PageOf(items, page, size).value.items;
             shown == Intended(items, page, step) <==> product <= MAX_INT || Wrap(product) >= |items|))
  {
    var step := PageSize(|items|, size);
    var product := (page - 1) * step;
    Nonnegative(page - 1, step);
    if product > MAX_INT {
      assert Intended(items, page, step) == [];
    }
  }

  /** The token of the largest int, and every token that is too large for one:
      with pages of 100 items the product becomes -200, and the slice panics,
      even on an empty list. */
  lemma LargestTokenPanics<T>(items: seq<T>, token: string)
    requires HasRoom(items) && Atoi(token) == MAX_INT
    ensures Atoi(Itoa(MAX_INT)) == MAX_INT
    ensures PageFromToken(token) == MAX_INT && PageOf(items, PageFromToken(token), 100) == None
  {
    AtoiOfItoa(MAX_INT);
    WrapTurns((MAX_INT - 1) * 100, 50);
    SliceIff(items, MAX_INT, 100);
  }

  /** A page number whose product comes round to zero shows the first page under
      another number. */
  lemma RoundTokenRepeats<T>(items: seq<T>)
    requires HasRoom(items) && items != []
    ensures var page := TWO_64 / 64 + 1;
      && PageOf(items, page, 64).Some? && PageOf(items, 1, 64).Some?
      && PageOf(items, page, 64).value.items == PageOf(items, 1, 64).value.items
      && PageOf(items, page, 64).value.items != Intended(items, page, 64)
  {
    WrapTurns(TWO_64 / 64 * 64, 1);
    SliceIff(items, TWO_64 / 64 + 1, 64);
    SliceIff(items, 1, 64);
  }

  // ---------- the walk ----------

  /** What a client sees that follows next-page tokens, for at most `most`
      pages, and whether a slice panicked on the way. */
  datatype Walk<T> = Walk(pages: seq<Page<T>>, panicked: bool)

  function Follow<T>(items: seq<T>, size: int, token: string, most: nat): Walk<T>
    requires HasRoom(items)
    decreases most
  {
    if most == 0 then Walk([], false)
    else
      match PageOf(items, PageFromToken(token), size)
      case None => Walk([], true)
      case Some(p) =>
        if NextPage(p) == "" then Walk([p], false)
        else
          var rest := Follow(items, size, NextPage(p), most - 1);
          Walk([p] + rest.pages, rest.panicked)
  }

  function ItemsOf<T>(pages: seq<Page<T>>): seq<T> {
    if pages == [] then [] else pages[0].items + ItemsOf(pages[1..])
  }

  /** Pages needed for n items. */
  function PageCount(n: nat, size: int): (r: nat)
    ensures r >= 1
  {
    var step := PageSize(n, size);
    if n == 0 then 1 else (n + step - 1) / step
  }

  lemma CeilIs(n: nat, step: int)
    requires 1 <= step && n > 0
    ensures var c := (n + step - 1) / step; c >= 1 && (c - 1) * step < n <= c * step
  {
    var c := (n + step - 1) / step;
    assert n + step - 1 == c * step + (n + step - 1) % step;
    assert (c - 1) * step == c * step - step;
  }

  lemma StepAhead(k: int, step: int)
    ensures (k + 1) * step == k * step + step
  {
  }

  lemma MulMonotone(a: int, b: int, step: int)
    requires a <= b && step >= 0
    ensures a * step <= b * step
  {
  }

  lemma PageBounds(n: nat, size: int, k: nat)
    requires k < PageCount(n, size)
    ensures var step := PageSize(n, size);
      k <= k * step <= n && (k * step + step < n <==> k + 1 < PageCount(n, size))
  {
    hide PageSize;
    var step, c := PageSize(n, size), PageCount(n, size);
    StepAhead(k, step);
    MulMonotone(1, step, k);
    if n > 0 {
      CeilIs(n, step);
      MulMonotone(k, c - 1, step);
      if k + 1 < c {
        MulMonotone(k + 1, c - 1, step);
      }
    }
  }

  /** Page k + 1 starts after k full pages; there are more exactly before the last. */
  lemma PageAt<T>(items: seq<T>, size: int, k: nat)
    requires HasRoom(items) && k < PageCount(|items|, size)
    ensures var step := PageSize(|items|, size);
      && 0 <= k * step <= |items| && k < MAX_INT
      && PageOf(items, k + 1, size).Some?
      && var p := PageOf(items, k + 1, size).value;
      && p.page == k + 1
      && (p.hasMore <==> k + 1 < PageCount(|items|, size))
      && (if p.hasMore then k * step + step <= |items| && p.items == items[k * step..k * step + step]
          else p.items == items[k * step..])
  {
    hide PageSize, PageCount;
    PageBounds(|items|, size, k);
  }

  lemma {:induction false} FollowFrom<T>(items: seq<T>, size: int, token: string, k: nat, most: nat)
    requires HasRoom(items) && k < PageCount(|items|, size) && most >= PageCount(|items|, size) - k
    requires PageFromToken(token) == k + 1
    ensures var walk, step := Follow(items, size, token, most), PageSize(|items|, size);
      && !walk.panicked
      && |walk.pages| == PageCount(|items|, size) - k
      && 0 <= k * step <= |items| && ItemsOf(walk.pages) == items[k * step..]
      && NextPage(walk.pages[|walk.pages| - 1]) == ""
    decreases PageCount(|items|, size) - k
  {
    hide PageOf, PageCount, PageSize, Atoi, Itoa;
    PageAt(items, size, k);
    var p := PageOf(items, k + 1, size).value;
    var step := PageSize(|items|, size);
    StepAhead(k, step);
    if p.hasMore {
      PageAt(items, size, k + 1);
      AtoiOfItoa(k + 2);
      ItoaIsNotEmpty(k + 2);
      assert NextPage(p) == Itoa(k + 2) && PageFromToken(NextPage(p)) == k + 2;
      FollowFrom(items, size, NextPage(p), k + 1, most - 1);
      var rest := Follow(items, size, NextPage(p), most - 1).pages;
      assert ([p] + rest)[1..] == rest;
      assert items[k * step..] == items[k * step..k * step + step] + items[k * step + step..];
    } else {
      assert [p][1..] == [];
      assert items[k * step..] + [] == items[k * step..];
    }
  }

  lemma ItoaIsNotEmpty(n: int)
    ensures Itoa(n) != ""
  {
  }

  /** From the empty token, following the next-page tokens shows every item
      exactly once and in order, without a panic, and stops by itself after
      max(1, ceil(n / step)) pages, however many more the client would ask for. */
  lemma WalkVisitsEachOnce<T>(items: seq<T>, size: int, most: nat)
    requires HasRoom(items) && most >= PageCount(|items|, size)
    ensures var walk := Follow(items, size, "", most);
      && !walk.panicked
      && ItemsOf(walk.pages) == items
      && |walk.pages| == PageCount(|items|, size)
      && NextPage(walk.pages[|walk.pages| - 1]) == ""
  {
    assert PageFromToken("") == 1;
    FollowFrom(items, size, "", 0, most);
  }

  /** A token that is not a positive number starts over. A page beyond the last
      is empty and ends the walk exactly when its product fits an int, or at
      least lands beyond the list. */
  lemma OtherTokens<T>(items: seq<T>, size: int, token: string)
    requires HasRoom(items)
    ensures Atoi(token) <= 0 ==> PageOf(items, PageFromToken(token), size) == PageOf(items, 1, size)
    ensures var page := PageFromToken(token);
      var product, p := (page - 1) * PageSize(|items|, size), PageOf(items, page, size);
      page > PageCount(|items|, size) ==>
        (p.Some? && p.value.items == [] && NextPage(p.value) == "" <==>
           product <= MAX_INT || Wrap(product) >= |items|)
  {
    hide Itoa;
    var page, c, step := PageFromToken(token), PageCount(|items|, size), PageSize(|items|, size);
    SliceIff(items, page, size);
    if page > c {
      MulMonotone(c, page - 1, step);
      if |items| > 0 { CeilIs(|items|, step); } else { MulMonotone(0, page - 1, step); }
      assert Intended(items, page, step) == [];
    }
  }

  /** The first page: as many items as asked for, up to 100, or up to 100 of all
      when no number is asked for; more to come exactly when some are left. */
  lemma FirstPageShows<T>(items: seq<T>, size: int)
    requires HasRoom(items)
    ensures var most := if 0 < size < 100 then size else 100;
      var shown := if |items| < most then |items| else most;
      var p := PageOf(items, 1, size);
      && p.Some? && p.value.items == items[..shown] && p.value.total == |items| && p.value.page == 1
      && (p.value.hasMore <==> shown < |items|)
      && (size > 0 ==> p.value.size == most)
  {
    assert items[0..Min(PageSize(|items|, size), |items|)] == items[..Min(PageSize(|items|, size), |items|)];
  }
}
