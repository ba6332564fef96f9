/** The filter of the slow-log metric: one record per index and query, then the slowest ones.

    The dictionary compares times as strings; only the final sort compares them as numbers. Python's
    conversion of a string to an integer is a parameter that may fail. */
module SlowLogFilter {
  import opened Basics
  import opened SlowLogRecord

  // ----- Stable sort by descending number -----

  /** Places x after every element that is not smaller. */
  function Insert<T>(s: seq<T>, x: T, num: T -> int): seq<T> {
    if s == [] || num(s[|s| - 1]) >= num(x) then s + [x]
    else Insert(s[..|s| - 1], x, num) + [s[|s| - 1]]
  }

  /** Python's `sorted(s, key=num, reverse=True)`: stable, so equal elements keep their order. */
  function SortedDown<T>(s: seq<T>, num: T -> int): seq<T> {
    if s == [] then [] else Insert(SortedDown(s[..|s| - 1], num), s[|s| - 1], num)
  }

  predicate Descends<T>(s: seq<T>, num: T -> int) {
    forall i, j | 0 <= i < j < |s| :: num(s[i]) >= num(s[j])
  }

  lemma {:induction false} InsertAdds<T>(s: seq<T>, x: T, num: T -> int)
    ensures multiset(Insert(s, x, num)) == multiset(s) + multiset{x}
  {
    if !(s == [] || num(s[|s| - 1]) >= num(x)) {
      InsertAdds(s[..|s| - 1], x, num);
      assert s == s[..|s| - 1] + [s[|s| - 1]];
    }
  }

  predicate AtLeast<T>(s: seq<T>, num: T -> int, n: int) {
    forall i | 0 <= i < |s| :: num(s[i]) >= n
  }

  lemma {:induction false} InsertAtLeast<T>(s: seq<T>, x: T, num: T -> int, n: int)
    requires AtLeast(s, num, n) && num(x) >= n
    ensures AtLeast(Insert(s, x, num), num, n)
  {
    if !(s == [] || num(s[|s| - 1]) >= num(x)) {
      InsertAtLeast(s[..|s| - 1], x, num, n);
    }
  }

  lemma {:induction false} InsertDescends<T>(s: seq<T>, x: T, num: T -> int)
    requires Descends(s, num)
    ensures Descends(Insert(s, x, num), num)
  {
    if !(s == [] || num(s[|s| - 1]) >= num(x)) {
      var front, last := s[..|s| - 1], s[|s| - 1];
      InsertDescends(front, x, num);
      InsertAtLeast(front, x, num, num(last));
    }
  }

  lemma {:induction false} SortedDownSorts<T>(s: seq<T>, num: T -> int)
    ensures Descends(SortedDown(s, num), num)
    ensures multiset(SortedDown(s, num)) == multiset(s) && |SortedDown(s, num)| == |s|
  {
    if s != [] {
      SortedDownSorts(s[..|s| - 1], num);
      InsertDescends(SortedDown(s[..|s| - 1], num), s[|s| - 1], num);
      InsertAdds(SortedDown(s[..|s| - 1], num), s[|s| - 1], num);
      assert s == s[..|s| - 1] + [s[|s| - 1]];
      assert |multiset(SortedDown(s, num))| == |multiset(s)|;
    }
  }

  /** Elements of one number, in order. */
  function OfNumber<T>(s: seq<T>, num: T -> int, n: int): seq<T> {
    if s == [] then [] else (if num(s[0]) == n then [s[0]] else []) + OfNumber(s[1..], num, n)
  }

  lemma {:induction false} OfNumberAppend<T>(a: seq<T>, b: seq<T>, num: T -> int, n: int)
    ensures OfNumber(a + b, num, n) == OfNumber(a, num, n) + OfNumber(b, num, n)
  {
    if a == [] {
      assert a + b == b;
    } else {
      assert (a + b)[0] == a[0] && (a + b)[1..] == a[1..] + b;
      OfNumberAppend(a[1..], b, num, n);
      AppendAssociates(if num(a[0]) == n then [a[0]] else [], OfNumber(a[1..], num, n), OfNumber(b, num, n));
    }
  }

  lemma OfNumberOne<T>(x: T, num: T -> int, n: int)
    ensures OfNumber([x], num, n) == if num(x) == n then [x] else []
  {
    assert [x][1..] == [];
  }

  lemma {:induction false} InsertIsStable<T>(s: seq<T>, x: T, num: T -> int, n: int)
    requires Descends(s, num)
    ensures OfNumber(Insert(s, x, num), num, n) == OfNumber(s, num, n) + OfNumber([x], num, n)
  {
    if s == [] || num(s[|s| - 1]) >= num(x) {
      OfNumberAppend(s, [x], num, n);
    } else {
      var front, last := s[..|s| - 1], s[|s| - 1];
      assert s == front + [last];
      InsertIsStable(front, x, num, n);
      OfNumberAppend(Insert(front, x, num), [last], num, n);
      OfNumberAppend(front, [last], num, n);
      OfNumberOne(x, num, n);
      OfNumberOne(last, num, n);
    }
  }

  lemma {:induction false} SortIsStable<T>(s: seq<T>, num: T -> int, n: int)
    ensures OfNumber(SortedDown(s, num), num, n) == OfNumber(s, num, n)
  {
    if s != [] {
      var front, last := s[..|s| - 1], s[|s| - 1];
      assert s == front + [last];
      SortIsStable(front, num, n);
      SortedDownSorts(front, num);
      InsertIsStable(SortedDown(front, num), last, num, n);
      OfNumberAppend(front, [last], num, n);
    }
  }

  // ----- Times as strings and as numbers -----

  /** Python's `<` on strings. */
  predicate LexLess(a: string, b: string) {
    if a == "" then b != ""
    else b != "" && (a[0] < b[0] || (a[0] == b[0] && LexLess(a[1..], b[1..])))
  }

  lemma {:induction false} LexLessTransitive(a: string, b: string, c: string)
    requires LexLess(a, b) && LexLess(b, c)
    ensures LexLess(a, c)
  {
    if a != "" && a[0] == b[0] == c[0] {
      LexLessTransitive(a[1..], b[1..], c[1..]);
    }
  }

  lemma {:induction false} LexLessTotal(a: string, b: string)
    ensures LexLess(a, b) || LexLess(b, a) || a == b
    ensures !(LexLess(a, b) && LexLess(b, a))
    ensures !LexLess(a, a)
  {
    if a != "" && b != "" {
      LexLessTotal(a[1..], b[1..]);
      assert a == [a[0]] + a[1..] && b == [b[0]] + b[1..];
    }
    if a != "" {
      LexLessTotal(a[1..], a[1..]);
    }
  }

  predicate Digits(s: string) {
    forall i | 0 <= i < |s| :: '0' <= s[i] <= '9'
  }

  /** The value of a string of digits. */
  function Decimal(s: string): nat
    requires Digits(s)
  {
    if s == "" then 0 else 10 * Decimal(s[..|s| - 1]) + (s[|s| - 1] as nat - '0' as nat)
  }

  lemma {:induction false} LexLessSnoc(a: string, b: string, c: char, d: char)
    requires |a| == |b|
    ensures LexLess(a + [c], b + [d]) <==> LexLess(a, b) || (a == b && c < d)
  {
    var x, y := a + [c], b + [d];
    if a == "" {
      assert x[1..] == "" && y[1..] == "";
    } else {
      assert x[0] == a[0] && y[0] == b[0] && x[1..] == a[1..] + [c] && y[1..] == b[1..] + [d];
      LexLessSnoc(a[1..], b[1..], c, d);
      assert a == [a[0]] + a[1..] && b == [b[0]] + b[1..];
    }
  }

  /** Among times with equally many digits, the string order is the numeric order. */
  lemma {:induction false} EqualDigitsCompareAlike(a: string, b: string)
    requires Digits(a) && Digits(b) && |a| == |b|
    ensures LexLess(a, b) <==> Decimal(a) < Decimal(b)
    ensures a == b <==> Decimal(a) == Decimal(b)
    decreases |a|
  {
    if a != "" {
      var n := |a| - 1;
      assert a == a[..n] + [a[n]] && b == b[..n] + [b[n]];
      LexLessSnoc(a[..n], b[..n], a[n], b[n]);
      EqualDigitsCompareAlike(a[..n], b[..n]);
    }
  }

  /** A decimal numeral without leading zeros. */
  predicate Numeral(s: string) {
    s != "" && Digits(s) && (s[0] == '0' ==> |s| == 1)
  }

  function PowerOfTen(n: nat): nat {
    if n == 0 then 1 else 10 * PowerOfTen(n - 1)
  }

  lemma {:induction false} PowerGrows(m: nat, n: nat)
    requires m <= n
    ensures PowerOfTen(m) <= PowerOfTen(n)
    decreases n - m
  {
    if m < n {
      PowerGrows(m, n - 1);
    }
  }

  /** A string of digits lies below the power of its length, and from the power before on if it does
      not begin with a zero. */
  lemma {:induction false} DecimalBounds(s: string)
    requires Digits(s)
    ensures Decimal(s) < PowerOfTen(|s|)
    ensures s != "" && s[0] != '0' ==> PowerOfTen(|s| - 1) <= Decimal(s)
    decreases |s|
  {
    if s != "" {
      DecimalBounds(s[..|s| - 1]);
      if |s| > 1 {
        assert s[..|s| - 1][0] == s[0];
      } else {
        assert s[..0] == "";
      }
    }
  }

  /** Of two numerals the longer one is greater. */
  lemma LongerIsGreater(a: string, b: string)
    requires Numeral(a) && Numeral(b) && |a| < |b|
    ensures Decimal(a) < Decimal(b)
  {
    DecimalBounds(a);
    DecimalBounds(b);
    PowerGrows(|a|, |b| - 1);
  }

  // ----- The dictionary of retained records -----

  function Key(r: Record): string {
    r.index + "_" + r.source
  }

  /** The place of a key in the dictionary, in insertion order; its length if the key is new. */
  function Place(d: seq<Record>, key: string): (i: nat)
    ensures i <= |d|
    ensures i < |d| ==> Key(d[i]) == key
    ensures forall j | 0 <= j < i :: Key(d[j]) != key
  {
    if d == [] || Key(d[0]) == key then 0 else 1 + Place(d[1..], key)
  }

  /** A record replaces the one under its key only if its time string is greater. */
  function Offer(d: seq<Record>, r: Record): seq<Record> {
    var i := Place(d, Key(r));
    if i == |d| then d + [r] else if LexLess(d[i].tookMillis, r.tookMillis) then d[i := r] else d
  }

  function Retained(records: seq<Record>): seq<Record> {
    if records == [] then [] else Offer(Retained(records[..|records| - 1]), records[|records| - 1])
  }

  predicate OnePerKey(d: seq<Record>) {
    forall i, j | 0 <= i < j < |d| :: Key(d[i]) != Key(d[j])
  }

  /** Record i is the first with the greatest time string among the records of its key. */
  predicate FirstGreatest(records: seq<Record>, i: nat)
    requires i < |records|
  {
    forall j | 0 <= j < |records| && Key(records[j]) == Key(records[i]) ::
      && !LexLess(records[i].tookMillis, records[j].tookMillis)
      && (j < i ==> LexLess(records[j].tookMillis, records[i].tookMillis))
  }

  predicate IsRetained(records: seq<Record>, r: Record) {
    exists i: nat | i < |records| :: records[i] == r && FirstGreatest(records, i)
  }

  predicate Covers(d: seq<Record>, records: seq<Record>) {
    forall i | 0 <= i < |records| :: exists k | 0 <= k < |d| :: Key(d[k]) == Key(records[i])
  }

  lemma OfferKeepsKeys(d: seq<Record>, r: Record)
    requires OnePerKey(d)
    ensures OnePerKey(Offer(d, r))
    ensures forall k | 0 <= k < |d| :: k < |Offer(d, r)| && Key(Offer(d, r)[k]) == Key(d[k])
    ensures exists k | 0 <= k < |Offer(d, r)| :: Key(Offer(d, r)[k]) == Key(r)
  {
    var i := Place(d, Key(r));
    assert Key(Offer(d, r)[i]) == Key(r);
  }

  /** What stays retained when a record of another key, or not a greater one, comes after it. */
  lemma StaysRetained(records: seq<Record>, r: Record, x: Record)
    requires IsRetained(records, x) && (Key(x) == Key(r) ==> !LexLess(x.tookMillis, r.tookMillis))
    ensures IsRetained(records + [r], x)
  {
    var i: nat :| i < |records| && records[i] == x && FirstGreatest(records, i);
    assert (records + [r])[i] == x && FirstGreatest(records + [r], i);
  }

  lemma BecomesRetained(records: seq<Record>, r: Record, x: Record)
    requires IsRetained(records, x) && Key(x) == Key(r) && LexLess(x.tookMillis, r.tookMillis)
    ensures IsRetained(records + [r], r)
  {
    var i: nat :| i < |records| && records[i] == x && FirstGreatest(records, i);
    var all, n := records + [r], |records|;
    assert all[n] == r;
    forall j | 0 <= j < |all| && Key(all[j]) == Key(r)
      ensures !LexLess(r.tookMillis, all[j].tookMillis) && (j < n ==> LexLess(all[j].tookMillis, r.tookMillis))
    {
      if j < n {
        NotGreaterThenLess(all[j].tookMillis, x.tookMillis, r.tookMillis);
      } else {
        LexLessTotal(r.tookMillis, r.tookMillis);
      }
    }
    assert FirstGreatest(all, n);
  }

  lemma NotGreaterThenLess(a: string, b: string, c: string)
    requires !LexLess(b, a) && LexLess(b, c)
    ensures LexLess(a, c) && !LexLess(c, a)
  {
    LexLessTotal(a, b);
    if a != b {
      LexLessTransitive(a, b, c);
    }
    LexLessTotal(a, c);
  }

  lemma FirstOfItsKey(records: seq<Record>, d: seq<Record>, r: Record)
    requires Covers(d, records) && Place(d, Key(r)) == |d|
    ensures IsRetained(records + [r], r)
  {
    var all, n := records + [r], |records|;
    forall j | 0 <= j < n
      ensures Key(all[j]) != Key(r)
    {
      assert all[j] == records[j];
      var k :| 0 <= k < |d| && Key(d[k]) == Key(records[j]);
    }
    LexLessTotal(r.tookMillis, r.tookMillis);
    assert all[n] == r && FirstGreatest(all, n);
  }

  /** The dictionary holds, for every key that occurs, one record: the first with the greatest time
      string. */
  lemma {:induction false} RetainedExactly(records: seq<Record>)
    ensures OnePerKey(Retained(records)) && Covers(Retained(records), records)
    ensures forall r <- Retained(records) :: IsRetained(records, r)
  {
    if records != [] {
      var front, r := records[..|records| - 1], records[|records| - 1];
      var d := Retained(front);
      RetainedExactly(front);
      OfferKeepsKeys(d, r);
      OfferCovers(front, d, r);
      assert records == front + [r];
      OfferRetains(front, d, r);
    }
  }

  lemma OfferCovers(front: seq<Record>, d: seq<Record>, r: Record)
    requires OnePerKey(d) && Covers(d, front)
    ensures Covers(Offer(d, r), front + [r])
  {
    OfferKeepsKeys(d, r);
    var all, e := front + [r], Offer(d, r);
    forall i | 0 <= i < |all|
      ensures exists k | 0 <= k < |e| :: Key(e[k]) == Key(all[i])
    {
      if i < |front| {
        var k :| 0 <= k < |d| && Key(d[k]) == Key(front[i]);
        assert Key(e[k]) == Key(all[i]);
      }
    }
  }

  lemma OfferRetains(front: seq<Record>, d: seq<Record>, r: Record)
    requires OnePerKey(d) && Covers(d, front) && forall x <- d :: IsRetained(front, x)
    ensures forall x <- Offer(d, r) :: IsRetained(front + [r], x)
  {
    var i, e := Place(d, Key(r)), Offer(d, r);
    forall k | 0 <= k < |e|
      ensures IsRetained(front + [r], e[k])
    {
      if k == i == |d| {
        FirstOfItsKey(front, d, r);
      } else if k == i && LexLess(d[i].tookMillis, r.tookMillis) {
        BecomesRetained(front, r, d[i]);
      } else {
        assert e[k] == d[k] && d[k] in d;
        StaysRetained(front, r, e[k]);
      }
    }
  }

  /** The keys that occur. */
  function Keys(records: seq<Record>): set<string> {
    set i | 0 <= i < |records| :: Key(records[i])
  }

  lemma {:induction false} OnePerKeyCounts(d: seq<Record>)
    requires OnePerKey(d)
    ensures |Keys(d)| == |d|
  {
    if d != [] {
      var front, last := d[..|d| - 1], d[|d| - 1];
      OnePerKeyCounts(front);
      assert Keys(d) == Keys(front) + {Key(last)};
    }
  }

  lemma RetainedCounts(records: seq<Record>)
    ensures |Retained(records)| == |Keys(records)|
  {
    RetainedExactly(records);
    var d := Retained(records);
    OnePerKeyCounts(d);
    assert Keys(d) == Keys(records) by {
      forall k | 0 <= k < |d|
        ensures Key(d[k]) in Keys(records)
      {
        assert d[k] in d;
      }
    }
  }

  // ----- The filter -----

  type Conversion = string -> Option<int>

  function Slowness(number: Conversion): Record -> int {
    (r: Record) => if number(r.tookMillis).Some? then number(r.tookMillis).value else 0
  }

  /** Python's slice `s[:top]`. */
  function Head<T>(s: seq<T>, top: int): seq<T> {
    if top >= |s| then s else if top >= 0 then s[..top] else if |s| + top >= 0 then s[..|s| + top] else []
  }

  /** It is the beginning of s: `top` elements, or all but the last `-top`, as far as there are so many. */
  lemma HeadSize<T>(s: seq<T>, top: int)
    ensures Head(s, top) <= s
    ensures top >= 0 ==> |Head(s, top)| == if top <= |s| then top else |s|
    ensures top < 0 ==> |Head(s, top)| == if |s| + top >= 0 then |s| + top else 0
  {
  }

  /** None is the exception for a retained time that is no number. */
  method FilterRecords(records: seq<Record>, top: int, number: Conversion) returns (result: Option<seq<Record>>)
    ensures result.None? <==> exists r <- Retained(records) :: number(r.tookMillis).None?
    ensures result.Some? ==> result.value == Head(SortedDown(Retained(records), Slowness(number)), top)
  {
    var d: seq<Record> := [];
    for i := 0 to |records|
      invariant d == Retained(records[..i])
    {
      assert records[..i + 1][..i] == records[..i];
      var k := Place(d, Key(records[i]));
      if k == |d| {
        d := d + [records[i]];
      } else if LexLess(d[k].tookMillis, records[i].tookMillis) {
        d := d[k := records[i]];
      }
    }
    assert records[..|records|] == records;
    if exists r <- d :: number(r.tookMillis).None? {
      return None;
    }
    result := Some(Head(SortedDown(d, Slowness(number)), top));
  }

  /** What the filter returns: as many records as asked for or as there are keys; one per key, each
      the first with the greatest time string of its key; in descending order of time; and nothing
      that was retained but left out is slower than what is returned. */
  lemma FilterSelects(records: seq<Record>, top: nat, num: Record -> int)
    ensures var result := Head(SortedDown(Retained(records), num), top);
            && |result| == (if top <= |Keys(records)| then top else |Keys(records)|)
            && OnePerKey(result) && Descends(result, num)
            && (forall r <- result :: IsRetained(records, r))
            && (forall r <- Retained(records), x <- result :: r !in result ==> num(r) <= num(x))
  {
    var d := Retained(records);
    var sorted := SortedDown(d, num);
    RetainedExactly(records);
    RetainedCounts(records);
    SortedDownSorts(d, num);
    PermutationKeepsKeysApart(d, sorted);
    SameElements(d, sorted);
    HeadIsSlowest(sorted, top, num);
  }

  lemma SameElements<T>(a: seq<T>, b: seq<T>)
    requires multiset(a) == multiset(b)
    ensures forall x :: x in a <==> x in b
  {
    assert forall x :: x in a <==> x in multiset(a);
    assert forall x :: x in b <==> x in multiset(b);
  }

  /** The head of a descending list: nothing outside it is greater than anything in it. */
  lemma HeadIsSlowest<T>(s: seq<T>, top: nat, num: T -> int)
    requires Descends(s, num)
    ensures Descends(Head(s, top), num) && Head(s, top) <= s
    ensures forall r <- s, x <- Head(s, top) :: r !in Head(s, top) ==> num(r) <= num(x)
  {
    forall r <- s, x <- Head(s, top) | r !in Head(s, top)
      ensures num(r) <= num(x)
    {
      var i :| 0 <= i < |s| && s[i] == r;
      var j :| 0 <= j < |Head(s, top)| && Head(s, top)[j] == x;
      assert s[j] == x;
      assert i >= |Head(s, top)|;
    }
  }

  lemma PermutationKeepsKeysApart(d: seq<Record>, s: seq<Record>)
    requires OnePerKey(d) && multiset(s) == multiset(d)
    ensures OnePerKey(s)
  {
    forall i, j | 0 <= i < j < |s|
      ensures Key(s[i]) != Key(s[j])
    {
      assert s[i] in multiset(s) && s[j] in multiset(s);
      var a :| 0 <= a < |d| && d[a] == s[i];
      var b :| 0 <= b < |d| && d[b] == s[j];
      if s[i] == s[j] {
        TwiceIsTwice(s, i, j);
        OnceIsOnce(d, a);
      }
    }
  }

  lemma TwiceIsTwice(s: seq<Record>, i: nat, j: nat)
    requires i < j < |s| && s[i] == s[j]
    ensures multiset(s)[s[i]] >= 2
  {
    assert s == s[..j] + s[j..];
    assert s[i] in s[..j] && s[j..][0] == s[j];
    assert s[i] in multiset(s[..j]) && s[j] in multiset(s[j..]);
  }

  lemma {:induction false} OnceIsOnce(d: seq<Record>, a: nat)
    requires OnePerKey(d) && a < |d|
    ensures multiset(d)[d[a]] == 1
  {
    assert d == d[..a] + [d[a]] + d[a + 1..];
    assert d[a] !in multiset(d[..a]) && d[a] !in multiset(d[a + 1..]) by {
      assert forall x <- d[..a] :: Key(x) != Key(d[a]);
      assert forall x <- d[a + 1..] :: Key(x) != Key(d[a]);
    }
  }

  /** The times of a key are numerals. */
  predicate NumeralTimes(records: seq<Record>, key: string) {
    forall j | 0 <= j < |records| && Key(records[j]) == key :: Numeral(records[j].tookMillis)
  }

  /** No record of the key took longer. */
  predicate Slowest(records: seq<Record>, r: Record)
    requires Digits(r.tookMillis) && NumeralTimes(records, Key(r))
  {
    forall j | 0 <= j < |records| && Key(records[j]) == Key(r) ::
      Decimal(records[j].tookMillis) <= Decimal(r.tookMillis)
  }

  /** No time string of the key is longer. */
  predicate LongestString(records: seq<Record>, r: Record) {
    forall j | 0 <= j < |records| && Key(records[j]) == Key(r) :: |records[j].tookMillis| <= |r.tookMillis|
  }

  /** Where the times of a key are numerals, the retained record is the slowest of its key exactly when
      no time string of the key is longer than its own. */
  lemma SlowestExactly(records: seq<Record>, r: Record)
    requires NumeralTimes(records, Key(r)) && IsRetained(records, r)
    ensures Numeral(r.tookMillis)
    ensures Slowest(records, r) <==> LongestString(records, r)
  {
    forall j | 0 <= j < |records| && Key(records[j]) == Key(r)
      ensures Decimal(records[j].tookMillis) <= Decimal(r.tookMillis) <==> |records[j].tookMillis| <= |r.tookMillis|
    {
      var time := records[j].tookMillis;
      if |time| < |r.tookMillis| {
        LongerIsGreater(time, r.tookMillis);
      } else if |time| > |r.tookMillis| {
        LongerIsGreater(r.tookMillis, time);
      } else {
        EqualDigitsCompareAlike(r.tookMillis, time);
      }
    }
  }

  /** Digit strings of one length need no condition, even with leading zeros. */
  lemma RetainedIsSlowest(records: seq<Record>, r: Record, j: nat)
    requires IsRetained(records, r) && j < |records| && Key(records[j]) == Key(r)
    requires Digits(r.tookMillis) && Digits(records[j].tookMillis) && |r.tookMillis| == |records[j].tookMillis|
    ensures Decimal(records[j].tookMillis) <= Decimal(r.tookMillis)
  {
    EqualDigitsCompareAlike(r.tookMillis, records[j].tookMillis);
  }

  /** It does fail: of two records of one key that took nine and ten milliseconds the faster is kept. */
  lemma FasterRecordKept(r: Record)
    ensures Retained([r.(tookMillis := "9"), r.(tookMillis := "10")]) == [r.(tookMillis := "9")]
    ensures Decimal("9") < Decimal("10")
  {
    var nine, ten := r.(tookMillis := "9"), r.(tookMillis := "10");
    var records := [nine, ten];
    assert records[..1] == [nine] && [nine][..0] == [];
    assert Retained([nine]) == [nine];
    assert Place([nine], Key(ten)) == 0;
    LongerIsGreater("9", "10");
  }

  // ----- Shared keys -----

  /** The same query on the same index. */
  predicate SameQuery(r: Record, s: Record) {
    r.index == s.index && r.source == s.source
  }

  /** The index of s continues that of r by an underscore and some text, with which the query of r
      begins in turn. */
  ghost predicate Straddles(r: Record, s: Record) {
    exists u: string :: s.index == r.index + "_" + u && r.source == u + "_" + s.source
  }

  lemma StraddlingSharesKey(r: Record, s: Record, u: string)
    requires s.index == r.index + "_" + u && r.source == u + "_" + s.source
    ensures Key(r) == Key(s)
  {
    var left, middle := r.index + "_", u + "_";
    assert Key(r) == left + (middle + s.source);
    assert Key(s) == (left + u) + "_" + s.source;
    assert (left + u) + "_" + s.source == left + (middle + s.source);
  }

  lemma SharedKeyStraddles(r: Record, s: Record)
    requires Key(r) == Key(s) && |r.index| < |s.index|
    ensures Straddles(r, s)
  {
    var n, m, key := |r.index|, |s.index|, Key(r);
    assert key[..n] == r.index && key[n] == '_' && key[n + 1..] == r.source;
    assert key[..m] == s.index && key[m] == '_' && key[m + 1..] == s.source;
    var u := key[n + 1..m];
    assert s.index == key[..n] + [key[n]] + u;
    assert r.source == u + [key[m]] + key[m + 1..];
  }

  lemma SameLengthSameQuery(r: Record, s: Record)
    requires Key(r) == Key(s) && |r.index| == |s.index|
    ensures SameQuery(r, s)
  {
    var n, key := |r.index|, Key(r);
    assert key[..n] == r.index && key[n + 1..] == r.source;
    assert key[..n] == s.index && key[n + 1..] == s.source;
  }

  /** Two records have one key exactly when they are the same query or one straddles into the other. */
  lemma SharedKeyExactly(r: Record, s: Record)
    ensures Key(r) == Key(s) <==> SameQuery(r, s) || Straddles(r, s) || Straddles(s, r)
  {
    if Key(r) == Key(s) {
      if |r.index| < |s.index| {
        SharedKeyStraddles(r, s);
      } else if |r.index| > |s.index| {
        SharedKeyStraddles(s, r);
      } else {
        SameLengthSameQuery(r, s);
      }
    } else if Straddles(r, s) {
      var u: string :| s.index == r.index + "_" + u && r.source == u + "_" + s.source;
      StraddlingSharesKey(r, s, u);
    } else if Straddles(s, r) {
      var u: string :| r.index == s.index + "_" + u && s.source == u + "_" + r.source;
      StraddlingSharesKey(s, r, u);
    }
  }

  /** The query of record i is among the retained records. */
  predicate QueryKept(records: seq<Record>, i: nat)
    requires i < |records|
  {
    exists r <- Retained(records) :: SameQuery(r, records[i])
  }

  lemma OneOfTwoDropped(records: seq<Record>, i: nat, j: nat)
    requires i < |records| && j < |records| && Key(records[i]) == Key(records[j]) && !SameQuery(records[i], records[j])
    ensures !(QueryKept(records, i) && QueryKept(records, j))
  {
    RetainedExactly(records);
  }

  lemma QueryOfItsKeyKept(records: seq<Record>, i: nat)
    requires i < |records|
    requires forall j | 0 <= j < |records| && Key(records[j]) == Key(records[i]) :: SameQuery(records[j], records[i])
    ensures QueryKept(records, i)
  {
    RetainedExactly(records);
    var d := Retained(records);
    var k :| 0 <= k < |d| && Key(d[k]) == Key(records[i]);
    assert d[k] in d && IsRetained(records, d[k]);
  }

  /** Every query keeps a record of its own exactly when none straddles into another. */
  lemma EveryQueryKeptExactly(records: seq<Record>)
    ensures (forall i: nat | i < |records| :: QueryKept(records, i)) <==>
            (forall i, j | 0 <= i < |records| && 0 <= j < |records| :: !Straddles(records[i], records[j]))
  {
    forall i, j | 0 <= i < |records| && 0 <= j < |records|
      ensures Key(records[i]) == Key(records[j]) <==>
              || SameQuery(records[i], records[j])
              || Straddles(records[i], records[j]) || Straddles(records[j], records[i])
    {
      SharedKeyExactly(records[i], records[j]);
    }
    if forall i, j | 0 <= i < |records| && 0 <= j < |records| :: !Straddles(records[i], records[j]) {
      forall i: nat | i < |records|
        ensures QueryKept(records, i)
      {
        QueryOfItsKeyKept(records, i);
      }
    } else {
      var i, j :| 0 <= i < |records| && 0 <= j < |records| && Straddles(records[i], records[j]);
      OneOfTwoDropped(records, i, j);
    }
  }

  /** It does happen: a query on index "a_b" and another on index "a" share one record. */
  lemma TwoQueriesOneRecord(r: Record)
    ensures var records := [r.(index := "a_b", source := "c"), r.(index := "a", source := "b_c")];
            !(QueryKept(records, 0) && QueryKept(records, 1))
  {
    var first, second := r.(index := "a_b", source := "c"), r.(index := "a", source := "b_c");
    StraddlingSharesKey(second, first, "b");
    OneOfTwoDropped([first, second], 0, 1);
  }
}
