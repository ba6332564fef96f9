/** The bracket scan of the slow-log parser: which texts it takes out of an element, and when it ends. */
module SlowLogScan {
  import opened Basics

  // ----- Python's string operations -----

  /** The first position of `c` at or after `from`, or -1. */
  function Find(s: string, c: char, from: nat): (i: int)
    ensures -1 <= i < |s|
    ensures i >= 0 ==> from <= i && s[i] == c
    ensures forall k | from <= k < (if i >= 0 then i else |s|) :: s[k] != c
    decreases |s| - from
  {
    if from >= |s| then -1 else if s[from] == c then from else Find(s, c, from + 1)
  }

  /** `s.find(c, start)`, where a negative start counts from the end. */
  function PyFind(s: string, c: char, start: int): int {
    Find(s, c, if start >= 0 then start else if start + |s| >= 0 then start + |s| else 0)
  }

  /** `s[lo:hi]`, where a negative `hi` counts from the end and crossed bounds give "". */
  function PySlice(s: string, lo: nat, hi: int): string {
    var end := if hi < 0 then hi + |s| else if hi > |s| then |s| else hi;
    if lo <= end <= |s| then s[lo..end] else ""
  }

  /** `s.endswith(' hits')`. */
  predicate EndsHits(s: string) {
    var n := |s|;
    n >= 5 && s[n - 5] == ' ' && s[n - 4] == 'h' && s[n - 3] == 'i' && s[n - 2] == 't' && s[n - 1] == 's'
  }

  /** Drops a final " hits". */
  function Unhits(value: string): string {
    if EndsHits(value) then value[..|value| - 5] else value
  }

  // ----- The bracket scan -----

  /** The loop's next `index`: the first "[" after the "]" that closes the current one. */
  function NextIndex(element: string, index: nat): int {
    PyFind(element, '[', PyFind(element, ']', index))
  }

  /** The text an iteration takes, before a final " hits" is dropped. */
  function TextAt(element: string, index: nat): string {
    PySlice(element, index + 1, PyFind(element, ']', index))
  }

  /** `index` after `n` iterations, or after fewer if the loop is left earlier. */
  function IndexAfter(element: string, n: nat): int {
    if n == 0 then PyFind(element, '[', 0)
    else
      var i := IndexAfter(element, n - 1);
      if i < 0 then i else NextIndex(element, i)
  }

  ghost predicate Terminates(element: string) {
    exists n: nat :: IndexAfter(element, n) == -1
  }

  predicate EndsOpen(element: string) {
    element != "" && element[|element| - 1] == '['
  }

  /** Every position the loop visits holds an opening bracket. */
  lemma {:induction false} ScanAtBracket(element: string, n: nat)
    ensures var i := IndexAfter(element, n); -1 <= i < |element| && (i >= 0 ==> element[i] == '[')
  {
    if n > 0 {
      ScanAtBracket(element, n - 1);
    }
  }

  lemma NextIndexAdvances(element: string, index: nat)
    requires index < |element| && element[index] == '[' && !EndsOpen(element)
    ensures NextIndex(element, index) == -1 || NextIndex(element, index) > index
  {
  }

  /** On an element that does not end with "[", each iteration leaves the loop or moves right. */
  lemma {:induction false} ScanAdvances(element: string, n: nat)
    requires !EndsOpen(element)
    ensures var i := IndexAfter(element, n); i == -1 || i >= n
  {
    if n > 0 {
      ScanAdvances(element, n - 1);
      ScanAtBracket(element, n - 1);
      var i := IndexAfter(element, n - 1);
      if i >= 0 {
        NextIndexAdvances(element, i);
      }
    }
  }

  lemma NextIndexSticks(element: string, index: nat)
    requires index < |element| && EndsOpen(element)
    ensures NextIndex(element, index) >= 0
  {
  }

  /** On an element that ends with "[" the loop never leaves: the missing "]" makes the next search
      start at the last character, again and again. */
  lemma {:induction false} ScanSticks(element: string, n: nat)
    requires EndsOpen(element)
    ensures IndexAfter(element, n) >= 0
  {
    if n > 0 {
      ScanSticks(element, n - 1);
      ScanAtBracket(element, n - 1);
      NextIndexSticks(element, IndexAfter(element, n - 1));
    }
  }

  /** The scan terminates exactly on the elements whose last character is not an opening bracket. */
  lemma ScanTerminatesExactly(element: string)
    ensures Terminates(element) <==> !EndsOpen(element)
  {
    if EndsOpen(element) {
      forall n: nat ensures IndexAfter(element, n) != -1 {
        ScanSticks(element, n);
      }
    } else {
      ScanAdvances(element, |element|);
      ScanAtBracket(element, |element|);
      assert IndexAfter(element, |element|) == -1;
    }
  }

  /** The bracketed texts of `element` from position `from` on, left to right. */
  function TextsFrom(element: string, from: nat): seq<string>
    decreases |element| - from
  {
    var i := Find(element, '[', from);
    if i == -1 then [] else
    var end := Find(element, ']', i);
    if end == -1 then [TextAt(element, i)]
    else [TextAt(element, i)] + TextsFrom(element, end)
  }

  /** The text in closed brackets is what stands between them; after a bracket that is never closed it is the
      rest of the element without its last character. */
  lemma TextBetween(element: string, index: nat, end: nat)
    requires index < end < |element| && element[end] == ']' && forall k | index <= k < end :: element[k] != ']'
    ensures TextAt(element, index) == element[index + 1..end]
  {
  }

  lemma UnclosedText(element: string, index: nat)
    requires index < |element| - 1 && forall k | index <= k < |element| :: element[k] != ']'
    ensures TextAt(element, index) == element[index + 1..|element| - 1]
  {
  }

  function UnhitsAll(texts: seq<string>): seq<string> {
    if texts == [] then [] else [Unhits(texts[0])] + UnhitsAll(texts[1..])
  }

  function Values(element: string): seq<string> {
    if Find(element, '[', 0) == -1 then [element] else UnhitsAll(TextsFrom(element, 0))
  }

  lemma {:induction false} UnhitsAllAppend(texts: seq<string>, text: string)
    ensures UnhitsAll(texts + [text]) == UnhitsAll(texts) + [Unhits(text)]
    decreases |texts|
  {
    if texts == [] {
      assert (texts + [text])[1..] == [];
    } else {
      assert (texts + [text])[1..] == texts[1..] + [text];
      UnhitsAllAppend(texts[1..], text);
    }
  }

  /** The texts the loop ends up with when it stands at `index` with `texts` already taken. */
  function Collect(element: string, index: int, texts: seq<string>): seq<string>
    requires !EndsOpen(element) && (index == -1 || (0 <= index < |element| && element[index] == '['))
    decreases if index == -1 then 0 else |element| - index
  {
    if index == -1 then texts
    else
      NextIndexAdvances(element, index);
      Collect(element, NextIndex(element, index), texts + [TextAt(element, index)])
  }

  lemma {:induction false} CollectIsTexts(element: string, from: nat, texts: seq<string>)
    requires !EndsOpen(element)
    ensures Collect(element, Find(element, '[', from), texts) == texts + TextsFrom(element, from)
    decreases |element| - from
  {
    var i := Find(element, '[', from);
    if i >= 0 {
      NextIndexAdvances(element, i);
      var end := Find(element, ']', i);
      if end >= 0 {
        CollectIsTexts(element, end, texts + [TextAt(element, i)]);
        AppendCons(texts, TextAt(element, i), TextsFrom(element, end));
      }
    }
  }

  /** `_extract_values_from_brackets`, on the elements where its loop ends. */
  method ExtractValues(element: string) returns (values: seq<string>)
    requires !EndsOpen(element)
    ensures values == Values(element)
  {
    var index := PyFind(element, '[', 0);
    if index == -1 {
      return [element];
    }
    values := [];
    ghost var texts: seq<string> := [];
    CollectIsTexts(element, 0, texts);
    while index != -1
      invariant index == -1 || (0 <= index < |element| && element[index] == '[')
      invariant values == UnhitsAll(texts) && Collect(element, index, texts) == TextsFrom(element, 0)
      decreases if index == -1 then 0 else |element| - index
    {
      NextIndexAdvances(element, index);
      var end := PyFind(element, ']', index);
      var value := PySlice(element, index + 1, end);
      UnhitsAllAppend(texts, value);
      texts := texts + [value];
      if EndsHits(value) {
        value := value[..|value| - 5];
      }
      values := values + [value];
      index := PyFind(element, '[', end);
    }
  }
}
