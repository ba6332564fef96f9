/** Joining and splitting at ", " as Python does it, and what splitting a joined list gives back. */
module SlowLogSplit {
  import opened Basics

  const SEP := ", "

  /** `', '.join(elements)`. */
  function Join(elements: seq<string>): string {
    if elements == [] then "" else if |elements| == 1 then elements[0]
    else elements[0] + SEP + Join(elements[1..])
  }

  /** `s` contains a comma followed by a space. */
  ghost predicate HasSep(s: string) {
    exists i :: 0 <= i < |s| - 1 && IsSep(s, i)
  }

  predicate IsSep(s: string, i: nat)
    requires i < |s| - 1
  {
    s[i] == ',' && s[i + 1] == ' '
  }

  /** The first separator at or after `from`, or -1. */
  function FindSep(s: string, from: nat): (i: int)
    ensures -1 <= i < |s| - 1 || (i == -1 && s == "")
    ensures i >= 0 ==> from <= i && IsSep(s, i)
    ensures forall k | from <= k < (if i >= 0 then i else |s| - 1) :: !IsSep(s, k)
    decreases |s| - from
  {
    if from >= |s| - 1 then -1 else if IsSep(s, from) then from else FindSep(s, from + 1)
  }

  /** `s.split(', ')`. */
  function Split(s: string): seq<string>
    decreases |s|
  {
    var i := FindSep(s, 0);
    if i == -1 then [s] else [s[..i]] + Split(s[i + 2..])
  }

  predicate StripChar(c: char) {
    c == ',' || c == ' '
  }

  /** `s.strip(', ')`. */
  function Strip(s: string): string
    decreases |s|
  {
    if s == "" then ""
    else if StripChar(s[0]) then Strip(s[1..])
    else if StripChar(s[|s| - 1]) then Strip(s[..|s| - 1])
    else s
  }

  /** The separator between two texts is found unless the first text has one of its own. */
  lemma FindSepJoined(a: string, b: string)
    ensures FindSep(a + SEP + b, 0) == if FindSep(a, 0) == -1 then |a| else FindSep(a, 0)
  {
    var s := a + SEP + b;
    assert forall k | 0 <= k < |a| - 1 :: IsSep(s, k) <==> IsSep(a, k);
    assert IsSep(s, |a|) && (a != "" ==> !IsSep(s, |a| - 1));
  }

  lemma {:induction false} SplitJoined(a: string, b: string)
    ensures Split(a + SEP + b) == Split(a) + Split(b)
    decreases |a|
  {
    var s := a + SEP + b;
    var i := FindSep(a, 0);
    FindSepJoined(a, b);
    if i == -1 {
      JoinedCut(a, b, |a|);
      assert Split(s) == [a] + Split(b);
    } else {
      var tail := a[i + 2..];
      JoinedCut(a, b, i);
      SplitJoined(tail, b);
      ConsAppend(a[..i], Split(tail), Split(b));
    }
  }

  lemma JoinedCut(a: string, b: string, i: nat)
    requires i <= |a|
    ensures (a + SEP + b)[..i] == a[..i]
    ensures i == |a| ==> (a + SEP + b)[..i] == a && (a + SEP + b)[i + 2..] == b
    ensures i + 2 <= |a| ==> (a + SEP + b)[i + 2..] == a[i + 2..] + SEP + b
  {
  }

  lemma SplitWhole(s: string)
    ensures |Split(s)| >= 1
    ensures |Split(s)| == 1 <==> !HasSep(s)
    ensures !HasSep(s) ==> Split(s) == [s]
  {
    var i := FindSep(s, 0);
    if i >= 0 {
      assert |Split(s[i + 2..])| >= 1 by { SplitWhole(s[i + 2..]); }
    }
  }

  /** The separators in s; they cannot overlap. */
  function SepCount(s: string): nat {
    if |s| < 2 then 0 else (if IsSep(s, 0) then 1 else 0) + SepCount(s[1..])
  }

  lemma {:induction false} SepCountFrom(s: string, i: nat)
    requires i <= |s| && forall k | 0 <= k < i && k < |s| - 1 :: !IsSep(s, k)
    ensures SepCount(s) == SepCount(s[i..])
  {
    if i > 0 {
      forall k | 0 <= k < i - 1 && k < |s[1..]| - 1
        ensures !IsSep(s[1..], k)
      {
        assert !IsSep(s, k + 1);
      }
      SepCountFrom(s[1..], i - 1);
      assert s[1..][i - 1..] == s[i..];
    } else {
      assert s[0..] == s;
    }
  }

  /** Splitting gives one part more than there are separators. */
  lemma {:induction false} SplitCount(s: string)
    ensures |Split(s)| == SepCount(s) + 1
    decreases |s|
  {
    var i := FindSep(s, 0);
    if i == -1 {
      SepCountFrom(s, |s|);
    } else {
      SepCountFrom(s, i);
      var rest := s[i..];
      assert IsSep(rest, 0) && rest[1..][0] == ' ';
      SepCountFrom(rest[1..], 1);
      assert rest[1..][1..] == s[i + 2..];
      SplitCount(s[i + 2..]);
    }
  }

  predicate OnlyStripped(s: string) {
    forall i | 0 <= i < |s| :: s[i] in {',', ' '}
  }

  /** Stripping takes commas and blanks off both ends, and all of them. */
  lemma {:induction false} StripExactly(s: string) returns (a: string, b: string)
    ensures s == a + Strip(s) + b && OnlyStripped(a) && OnlyStripped(b)
    ensures Strip(s) == "" || (Strip(s)[0] !in {',', ' '} && Strip(s)[|Strip(s)| - 1] !in {',', ' '})
    decreases |s|
  {
    if s == "" {
      a, b := "", "";
    } else if StripChar(s[0]) {
      a, b := StripExactly(s[1..]);
      a := [s[0]] + a;
    } else if StripChar(s[|s| - 1]) {
      a, b := StripExactly(s[..|s| - 1]);
      b := b + [s[|s| - 1]];
      assert s == s[..|s| - 1] + [s[|s| - 1]];
    } else {
      a, b := "", "";
    }
  }

  lemma {:induction false} HasSepConcat(a: string, b: string)
    ensures HasSep(a + b) <==>
            HasSep(a) || HasSep(b) || (a != "" && b != "" && a[|a| - 1] == ',' && b[0] == ' ')
  {
    var s := a + b;
    assert forall k | 0 <= k < |a| - 1 :: IsSep(s, k) <==> IsSep(a, k);
    assert forall k | 0 <= k < |b| - 1 :: IsSep(s, |a| + k) <==> IsSep(b, k);
    if a != "" && b != "" {
      assert IsSep(s, |a| - 1) <==> a[|a| - 1] == ',' && b[0] == ' ';
    }
    if HasSep(s) {
      var k :| 0 <= k < |s| - 1 && IsSep(s, k);
      if k >= |a| {
        assert IsSep(b, k - |a|);
      }
    }
  }

  ghost predicate NoSeps(elements: seq<string>) {
    forall k | 0 <= k < |elements| :: !HasSep(elements[k])
  }

  lemma NoSepsCons(elements: seq<string>)
    requires elements != []
    ensures NoSeps(elements) <==> !HasSep(elements[0]) && NoSeps(elements[1..])
  {
    assert forall k | 0 < k < |elements| :: elements[k] == elements[1..][k - 1];
  }

  lemma {:induction false} SplitJoin(elements: seq<string>)
    requires elements != []
    ensures var parts := Split(Join(elements));
            && |parts| >= |elements|
            && (|parts| == |elements| <==> NoSeps(elements))
            && (|parts| == |elements| ==> parts == elements)
    decreases |elements|
  {
    SplitWhole(elements[0]);
    NoSepsCons(elements);
    if |elements| > 1 {
      var rest := elements[1..];
      SplitJoined(elements[0], Join(rest));
      SplitJoin(rest);
      assert elements == [elements[0]] + rest;
    } else {
      assert elements == [elements[0]];
    }
  }

  lemma StripNothing(s: string)
    requires s != "" && !StripChar(s[0]) && !StripChar(s[|s| - 1])
    ensures Strip(s) == s
  {
  }

  lemma {:induction false} JoinLast(elements: seq<string>)
    requires elements != [] && elements[|elements| - 1] != ""
    ensures var s := Join(elements); var last := elements[|elements| - 1];
            s != "" && s[|s| - 1] == last[|last| - 1]
    decreases |elements|
  {
    if |elements| > 1 {
      JoinLast(elements[1..]);
    }
  }
}
