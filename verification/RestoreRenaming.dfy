/** Renaming of database prefixes while the curator restores a backup: names, alias dictionaries and
    index, component and obsolete templates. Prefixes are plain words, as the backup daemon checks,
    so the regular expression "prefix(.*)" matches from the first occurrence of the prefix on. */
module RestoreRenaming {
  import opened Basics

  // ----- Names -----

  predicate At(s: string, p: string, i: nat) {
    i + |p| <= |s| && s[i..i + |p|] == p
  }

  predicate Contains(s: string, p: string) {
    exists i: nat | i <= |s| :: At(s, p, i)
  }

  /** The first position from i on where p occurs; |s| + 1 if there is none. */
  function FirstFrom(s: string, p: string, i: nat): (r: nat)
    requires i <= |s|
    ensures i <= r <= |s| + 1
    ensures r <= |s| ==> At(s, p, r)
    ensures forall j: nat | i <= j < r && j <= |s| :: !At(s, p, j)
    decreases |s| - i
  {
    if At(s, p, i) then i else if i == |s| then |s| + 1 else FirstFrom(s, p, i + 1)
  }

  function First(s: string, p: string): nat {
    FirstFrom(s, p, 0)
  }

  function ReplaceAt(s: string, p: string, q: string, i: nat): string
    requires At(s, p, i)
  {
    s[..i] + q + s[i + |p|..]
  }

  /** `re.sub` of "p(.*)" by "q" and the group. */
  function Rename(s: string, p: string, q: string): string {
    if First(s, p) <= |s| then ReplaceAt(s, p, q, First(s, p)) else s
  }

  lemma FirstIs(s: string, p: string, i: nat)
    requires At(s, p, i) && forall j: nat | j < i :: !At(s, p, j)
    ensures First(s, p) == i
  {
  }

  /** A name of the database: only its prefix changes. */
  lemma RenamePrefixed(s: string, p: string, q: string)
    requires HasPrefix(s, p)
    ensures Rename(s, p, q) == q + s[|p|..]
    ensures HasPrefix(Rename(s, p, q), q)
  {
    FirstIs(s, p, 0);
    assert s[..0] + q == q;
  }

  /** Where the old prefix stands, the new one would be the first of its kind; a name without the old
      prefix does not have the new one either. */
  predicate RoundTrips(s: string, p: string, q: string) {
    if Contains(s, p) then First(s[..First(s, p)] + q, q) == First(s, p) else !Contains(s, q)
  }

  lemma ContainsExactly(s: string, p: string)
    ensures Contains(s, p) <==> First(s, p) <= |s|
  {
  }

  lemma ReplaceAtPlaces(s: string, p: string, q: string, i: nat)
    requires At(s, p, i)
    ensures At(ReplaceAt(s, p, q, i), q, i)
    ensures ReplaceAt(ReplaceAt(s, p, q, i), q, p, i) == s
  {
    var t := ReplaceAt(s, p, q, i);
    assert t[i..i + |q|] == q;
    assert t[..i] == s[..i] && t[i + |q|..] == s[i + |p|..];
    assert s == s[..i] + s[i..i + |p|] + s[i + |p|..];
  }

  /** What follows the replacement does not matter for where the new prefix is found first. */
  lemma FirstInHead(head: string, q: string, tail: string)
    ensures First(head + q + tail, q) == First(head + q, q) <= |head|
  {
    var whole, front := head + q + tail, head + q;
    assert At(front, q, |head|);
    forall j: nat | j <= |head|
      ensures At(whole, q, j) <==> At(front, q, j)
    {
      assert whole[j..j + |q|] == front[j..j + |q|];
    }
    FirstIs(whole, q, First(front, q));
  }

  /** Renaming back gives the same name exactly when putting q in place of the first p makes no earlier
      occurrence of q, or when the name has neither. */
  lemma RenameBackExactly(s: string, p: string, q: string)
    requires p != "" && q != ""
    ensures Rename(Rename(s, p, q), q, p) == s <==> RoundTrips(s, p, q)
  {
    ContainsExactly(s, p);
    ContainsExactly(s, q);
    var t := Rename(s, p, q);
    var i, j := First(s, p), First(t, q);
    if i <= |s| {
      ReplaceAtPlaces(s, p, q, i);
      FirstInHead(s[..i], q, s[i + |p|..]);
      if j < i {
        ReplaceAtPlaces(t, q, p, j);
        assert !At(s, p, j);
      }
    } else if j <= |t| {
      ReplaceAtPlaces(t, q, p, j);
      assert !At(s, p, j);
    }
  }

  /** A name that starts with p, or has neither p nor q in it, always survives. */
  lemma PlainNamesRoundTrip(s: string, p: string, q: string)
    requires p != "" && q != ""
    requires HasPrefix(s, p) || (!Contains(s, p) && !Contains(s, q))
    ensures RoundTrips(s, p, q)
  {
    if HasPrefix(s, p) {
      assert At(s, p, 0);
      FirstIs(s, p, 0);
      assert At(s[..0] + q, q, 0);
      FirstIs(s[..0] + q, q, 0);
    } else {
      ContainsExactly(s, p);
      ContainsExactly(s, q);
    }
  }

  /** Renaming back can hit another place: here the new prefix comes before the old one. */
  lemma RenameBackHitsAnotherPlace()
    ensures Rename("ba", "a", "b") == "bb" && Rename("bb", "b", "a") == "ab" && !RoundTrips("ba", "a", "b")
  {
    assert "ba"[0..1] == "b" && "ba"[1..2] == "a" && "bb"[0..1] == "b";
    FirstIs("ba", "a", 1);
    FirstIs("bb", "b", 0);
    RenameBackExactly("ba", "a", "b");
  }

  // ----- Alias dictionaries -----

  datatype Alias = Alias(name: string, body: string)

  /** A Python dictionary of aliases, in insertion order. */
  type Aliases = seq<Alias>

  predicate IsDict(d: Aliases) {
    forall i, j | 0 <= i < j < |d| :: d[i].name != d[j].name
  }

  /** `d[a.name] = a.body`: an existing key keeps its place. */
  function Put(d: Aliases, a: Alias): (r: Aliases)
    ensures |r| == |d| || r == d + [a]
  {
    if d == [] then [a]
    else if d[0].name == a.name then [a] + d[1..]
    else [d[0]] + Put(d[1..], a)
  }

  function RenameAlias(a: Alias, p: string, q: string): Alias {
    a.(name := Rename(a.name, p, q))
  }

  function PutRenamed(done: Aliases, d: Aliases, p: string, q: string): Aliases
    decreases |d|
  {
    if d == [] then done else PutRenamed(Put(done, RenameAlias(d[0], p, q)), d[1..], p, q)
  }

  /** What the loop over the aliases builds. */
  function RenamedAliases(d: Aliases, p: string, q: string): Aliases {
    PutRenamed([], d, p, q)
  }

  function EachRenamed(d: Aliases, p: string, q: string): Aliases {
    seq(|d|, i requires 0 <= i < |d| => RenameAlias(d[i], p, q))
  }

  lemma {:induction false} PutNew(d: Aliases, a: Alias)
    requires forall i | 0 <= i < |d| :: d[i].name != a.name
    ensures Put(d, a) == d + [a]
  {
    if d != [] {
      PutNew(d[1..], a);
    }
  }

  lemma {:induction false} PutInPlace(d: Aliases, a: Alias, i: nat)
    requires IsDict(d) && i < |d| && d[i].name == a.name
    ensures Put(d, a) == d[i := a]
  {
    if i > 0 {
      assert d[0].name != d[i].name && IsDict(d[1..]);
      PutInPlace(d[1..], a, i - 1);
    }
  }

  lemma {:induction false} PutRenamedSize(done: Aliases, d: Aliases, p: string, q: string)
    ensures |PutRenamed(done, d, p, q)| <= |done| + |d|
    ensures |PutRenamed(done, d, p, q)| == |done| + |d| ==> PutRenamed(done, d, p, q) == done + EachRenamed(d, p, q)
    decreases |d|
  {
    if d != [] {
      var a := RenameAlias(d[0], p, q);
      PutRenamedSize(Put(done, a), d[1..], p, q);
      assert EachRenamed(d, p, q) == [a] + EachRenamed(d[1..], p, q);
      assert (done + [a]) + EachRenamed(d[1..], p, q) == done + ([a] + EachRenamed(d[1..], p, q));
    } else {
      assert done + [] == done;
    }
  }

  lemma {:induction false} PutMember(d: Aliases, a: Alias, x: Alias)
    requires IsDict(d)
    ensures x in Put(d, a) <==> x == a || (x in d && x.name != a.name)
  {
    if d != [] {
      assert d == [d[0]] + d[1..] && forall y <- d[1..] :: y.name != d[0].name;
      if d[0].name != a.name {
        PutMember(d[1..], a, x);
      }
    }
  }

  lemma IsDictCons(a: Alias, d: Aliases)
    requires IsDict(d) && forall y <- d :: y.name != a.name
    ensures IsDict([a] + d)
  {
  }

  lemma {:induction false} PutKeepsDict(d: Aliases, a: Alias)
    requires IsDict(d)
    ensures IsDict(Put(d, a))
  {
    if d != [] {
      var rest := d[1..];
      assert forall y <- rest :: y.name != d[0].name;
      if d[0].name == a.name {
        IsDictCons(a, rest);
      } else {
        PutKeepsDict(rest, a);
        forall y <- Put(rest, a) ensures y.name != d[0].name {
          PutMember(rest, a, y);
        }
        IsDictCons(d[0], Put(rest, a));
      }
    }
  }

  lemma {:induction false} PutRenamedKeepsDict(done: Aliases, d: Aliases, p: string, q: string)
    requires IsDict(done)
    ensures IsDict(PutRenamed(done, d, p, q))
    decreases |d|
  {
    if d != [] {
      PutKeepsDict(done, RenameAlias(d[0], p, q));
      PutRenamedKeepsDict(Put(done, RenameAlias(d[0], p, q)), d[1..], p, q);
    }
  }

  lemma {:induction false} NoClashKeepsAll(done: Aliases, d: Aliases, p: string, q: string)
    requires IsDict(done + EachRenamed(d, p, q))
    ensures PutRenamed(done, d, p, q) == done + EachRenamed(d, p, q)
    decreases |d|
  {
    if d != [] {
      var a, all := RenameAlias(d[0], p, q), done + EachRenamed(d, p, q);
      assert EachRenamed(d, p, q) == [a] + EachRenamed(d[1..], p, q);
      assert all[|done|] == a && forall i | 0 <= i < |done| :: all[i] == done[i];
      PutNew(done, a);
      assert all == (done + [a]) + EachRenamed(d[1..], p, q);
      NoClashKeepsAll(done + [a], d[1..], p, q);
    } else {
      assert done + [] == done;
    }
  }

  /** No alias is lost exactly when the new names are distinct; then each alias is kept under its new
      name, in place. */
  lemma NoneLostExactly(d: Aliases, p: string, q: string)
    ensures |RenamedAliases(d, p, q)| == |d| <==> IsDict(EachRenamed(d, p, q))
    ensures IsDict(EachRenamed(d, p, q)) ==> RenamedAliases(d, p, q) == EachRenamed(d, p, q)
  {
    assert [] + EachRenamed(d, p, q) == EachRenamed(d, p, q);
    PutRenamedSize([], d, p, q);
    PutRenamedKeepsDict([], d, p, q);
    if IsDict(EachRenamed(d, p, q)) {
      NoClashKeepsAll([], d, p, q);
    }
  }

  /** No later alias gets the new name of alias i. */
  predicate LastUnder(d: Aliases, p: string, q: string, i: nat) {
    i < |d| && forall j | i < j < |d| :: Rename(d[j].name, p, q) != Rename(d[i].name, p, q)
  }

  predicate KeptBy(d: Aliases, p: string, q: string, i: nat, x: Alias) {
    LastUnder(d, p, q, i) && x == RenameAlias(d[i], p, q)
  }

  predicate Taken(d: Aliases, p: string, q: string, name: string) {
    exists j | 0 <= j < |d| :: Rename(d[j].name, p, q) == name
  }

  lemma TakenCons(d: Aliases, p: string, q: string, name: string)
    requires d != []
    ensures Taken(d, p, q, name) <==> Rename(d[0].name, p, q) == name || Taken(d[1..], p, q, name)
  {
    assert forall j | 0 < j < |d| :: d[j] == d[1..][j - 1];
  }

  lemma KeptCons(d: Aliases, p: string, q: string, x: Alias)
    requires d != []
    ensures (exists i: nat :: KeptBy(d, p, q, i, x)) <==>
            || (exists i: nat :: KeptBy(d[1..], p, q, i, x))
            || (x == RenameAlias(d[0], p, q) && !Taken(d[1..], p, q, x.name))
  {
    var rest := d[1..];
    forall i: nat | i < |rest|
      ensures KeptBy(d, p, q, i + 1, x) <==> KeptBy(rest, p, q, i, x)
    {
      assert rest[i] == d[i + 1];
      assert forall j | i < j < |rest| :: rest[j] == d[j + 1];
      assert forall j | i + 1 < j < |d| :: d[j] == rest[j - 1];
    }
    if i: nat :| KeptBy(d, p, q, i, x) {
      assert i > 0 ==> KeptBy(rest, p, q, i - 1, x);
    }
    if i: nat :| KeptBy(rest, p, q, i, x) {
      assert KeptBy(d, p, q, i + 1, x);
    }
    FirstIsLast(d, p, q);
    assert KeptBy(d, p, q, 0, x) <==> x == RenameAlias(d[0], p, q) && !Taken(rest, p, q, x.name);
  }

  lemma FirstIsLast(d: Aliases, p: string, q: string)
    requires d != []
    ensures LastUnder(d, p, q, 0) <==> !Taken(d[1..], p, q, Rename(d[0].name, p, q))
  {
    assert forall j | 0 < j < |d| :: d[j] == d[1..][j - 1];
  }

  lemma {:induction false} PutRenamedExactly(done: Aliases, d: Aliases, p: string, q: string, x: Alias)
    requires IsDict(done)
    ensures x in PutRenamed(done, d, p, q) <==>
            || (exists i: nat :: KeptBy(d, p, q, i, x))
            || (x in done && !Taken(d, p, q, x.name))
    decreases |d|
  {
    if d != [] {
      var a := RenameAlias(d[0], p, q);
      PutKeepsDict(done, a);
      PutMember(done, a, x);
      PutRenamedExactly(Put(done, a), d[1..], p, q, x);
      KeptCons(d, p, q, x);
      TakenCons(d, p, q, x.name);
    }
  }

  /** Of aliases that get one name the last is kept, and nothing else is in the renamed dictionary. */
  lemma LastAliasKept(d: Aliases, p: string, q: string, x: Alias)
    ensures x in RenamedAliases(d, p, q) <==> exists i: nat :: KeptBy(d, p, q, i, x)
  {
    PutRenamedExactly([], d, p, q, x);
  }

  predicate AliasesRoundTrip(d: Aliases, p: string, q: string) {
    forall i | 0 <= i < |d| :: RoundTrips(d[i].name, p, q)
  }

  lemma BackEach(d: Aliases, p: string, q: string)
    requires p != "" && q != ""
    ensures EachRenamed(EachRenamed(d, p, q), q, p) == d <==> AliasesRoundTrip(d, p, q)
  {
    var back := EachRenamed(EachRenamed(d, p, q), q, p);
    forall i | 0 <= i < |d|
      ensures back[i] == d[i] <==> RoundTrips(d[i].name, p, q)
    {
      RenameBackExactly(d[i].name, p, q);
    }
  }

  /** Names that survive stay apart: renaming them is injective. */
  lemma SurvivorsStayApart(d: Aliases, p: string, q: string)
    requires p != "" && q != "" && IsDict(d) && AliasesRoundTrip(d, p, q)
    ensures IsDict(EachRenamed(d, p, q))
  {
    forall i, j | 0 <= i < j < |d|
      ensures Rename(d[i].name, p, q) != Rename(d[j].name, p, q)
    {
      RenameBackExactly(d[i].name, p, q);
      RenameBackExactly(d[j].name, p, q);
    }
  }

  /** An alias dictionary comes back unchanged, with no alias lost on the way, exactly when every
      alias name does. */
  lemma AliasesBackExactly(d: Aliases, p: string, q: string)
    requires p != "" && q != "" && IsDict(d)
    ensures RenamedAliases(RenamedAliases(d, p, q), q, p) == d <==> AliasesRoundTrip(d, p, q)
    ensures AliasesRoundTrip(d, p, q) ==> RenamedAliases(d, p, q) == EachRenamed(d, p, q)
  {
    BackEach(d, p, q);
    var there := RenamedAliases(d, p, q);
    if AliasesRoundTrip(d, p, q) {
      SurvivorsStayApart(d, p, q);
      assert [] + EachRenamed(d, p, q) == EachRenamed(d, p, q);
      NoClashKeepsAll([], d, p, q);
      assert [] + EachRenamed(there, q, p) == d;
      NoClashKeepsAll([], there, q, p);
    } else {
      PutRenamedSize([], d, p, q);
      PutRenamedSize([], there, q, p);
      assert [] + EachRenamed(d, p, q) == EachRenamed(d, p, q);
      assert [] + EachRenamed(there, q, p) == EachRenamed(there, q, p);
    }
  }
}
