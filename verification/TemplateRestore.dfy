/** Restoring component and index templates: each list is selected by database prefix, and a selected
    template is renamed by its own database. States which references between them survive.

    A position in a recorded list stands for the object read from the file: a template that belongs to
    two databases is one object in two groups, and renaming it in place shows in both. */
module TemplateRestore {
  import opened Basics
  import opened RestoreRenaming
  import opened TemplateRenaming
  import opened GranularRestore
  import opened RestoredNames

  predicate OwnedBy(d: Document, db: string) {
    d.name.Some? && HasPrefix(d.name.value, db)
  }

  // ----- What is put -----

  /** The objects after those of one database were renamed. Which ones belong to it was decided on the
      recorded names, before anything was renamed. */
  function RenameOwned(docs: seq<Document>, objects: seq<Document>, db: string, q: string): (r: seq<Document>)
    requires |objects| == |docs|
    ensures |r| == |docs|
  {
    seq(|docs|, p requires 0 <= p < |docs| =>
      if OwnedBy(docs[p], db) then Renamed(objects[p], true, db, q) else objects[p])
  }

  /** The objects after the first n databases. */
  function AfterDatabases(docs: seq<Document>, keys: seq<string>, renames: Renames, n: nat): (r: seq<Document>)
    requires n <= |keys|
    ensures |r| == |docs|
  {
    if n == 0 then docs
    else
      var before, db := AfterDatabases(docs, keys, renames, n - 1), keys[n - 1];
      if db in renames then RenameOwned(docs, before, db, renames[db]) else before
  }

  /** The objects among the first n that belong to a database. */
  function Selected(docs: seq<Document>, objects: seq<Document>, db: string, n: nat): seq<Document>
    requires n <= |docs| == |objects|
  {
    if n == 0 then []
    else Selected(docs, objects, db, n - 1) + (if OwnedBy(docs[n - 1], db) then [objects[n - 1]] else [])
  }

  /** What is put for the first n databases. */
  function PutFor(docs: seq<Document>, objects: seq<Document>, keys: seq<string>, n: nat): seq<Document>
    requires n <= |keys| && |docs| == |objects|
  {
    if n == 0 then [] else PutFor(docs, objects, keys, n - 1) + Selected(docs, objects, keys[n - 1], |docs|)
  }

  function PutList(docs: seq<Document>, dbs: seq<string>, renames: Renames): seq<Document> {
    var keys := DictKeys(dbs);
    PutFor(docs, AfterDatabases(docs, keys, renames, |keys|), keys, |keys|)
  }

  /** Renames the templates of the requested databases, each by the databases it belongs to, and puts them. */
  method RestoreTemplates(docs: seq<Document>, dbs: seq<string>, renames: Renames) returns (put: seq<Document>)
    ensures put == PutList(docs, dbs, renames)
  {
    var keys := DictKeys(dbs);
    var objects := docs;
    for n := 0 to |keys|
      invariant |objects| == |docs| && objects == AfterDatabases(docs, keys, renames, n)
    {
      if keys[n] in renames {
        objects := RenameTemplates(docs, objects, keys[n], renames[keys[n]]);
      }
    }
    put := [];
    for n := 0 to |keys|
      invariant put == PutFor(docs, objects, keys, n)
    {
      put := put + Selected(docs, objects, keys[n], |docs|);
    }
  }

  method RenameTemplates(docs: seq<Document>, objects: seq<Document>, db: string, q: string)
    returns (renamed: seq<Document>)
    requires |objects| == |docs|
    ensures renamed == RenameOwned(docs, objects, db, q)
  {
    renamed := objects;
    for p := 0 to |docs|
      invariant |renamed| == |docs|
      invariant forall i | 0 <= i < p :: renamed[i] == RenameOwned(docs, objects, db, q)[i]
      invariant forall i | p <= i < |docs| :: renamed[i] == objects[i]
    {
      if OwnedBy(docs[p], db) {
        renamed := renamed[p := Renamed(renamed[p], true, db, q)];
      }
    }
  }

  // ----- What becomes of one template -----

  /** What a string in a template recorded as `owner` is after the first n databases: renamed by each
      database the template belongs to, in turn. */
  function Carried(owner: string, keys: seq<string>, renames: Renames, n: nat, x: string): string
    requires n <= |keys|
  {
    if n == 0 then x
    else
      var before, db := Carried(owner, keys, renames, n - 1, x), keys[n - 1];
      if HasPrefix(owner, db) && db in renames then Rename(before, db, renames[db]) else before
  }

  /** The template itself after the first n databases. */
  function Image(d: Document, keys: seq<string>, renames: Renames, n: nat): Document
    requires n <= |keys|
  {
    if n == 0 then d
    else
      var before, db := Image(d, keys, renames, n - 1), keys[n - 1];
      if OwnedBy(d, db) && db in renames then Renamed(before, true, db, renames[db]) else before
  }

  function NameAfter(owner: string, dbs: seq<string>, renames: Renames, x: string): string {
    Carried(owner, DictKeys(dbs), renames, |DictKeys(dbs)|, x)
  }

  function ImageAfter(d: Document, dbs: seq<string>, renames: Renames): Document {
    Image(d, DictKeys(dbs), renames, |DictKeys(dbs)|)
  }

  function ComposedOf(d: Document): seq<string> {
    var s := Inner(d, true);
    if s.composedOf.Some? then s.composedOf.value else []
  }

  lemma RenamedReferences(d: Document, p: string, q: string)
    ensures ComposedOf(Renamed(d, true, p, q)) == RenamedNames(ComposedOf(d), p, q)
  {
    InnerOfRenamed(d, true, p, q);
  }

  /** Its name and its references are carried along with it. */
  lemma {:induction false} ImageNames(d: Document, keys: seq<string>, renames: Renames, n: nat)
    requires n <= |keys| && d.name.Some?
    ensures var t := Image(d, keys, renames, n); var owner := d.name.value;
            && t.name == Some(Carried(owner, keys, renames, n, owner))
            && |ComposedOf(t)| == |ComposedOf(d)|
            && forall i | 0 <= i < |ComposedOf(d)| ::
                 ComposedOf(t)[i] == Carried(owner, keys, renames, n, ComposedOf(d)[i])
  {
    if n > 0 {
      ImageNames(d, keys, renames, n - 1);
      var db := keys[n - 1];
      if db in renames {
        RenamedReferences(Image(d, keys, renames, n - 1), db, renames[db]);
      }
    }
  }

  lemma {:induction false} AfterDatabasesAt(docs: seq<Document>, keys: seq<string>, renames: Renames, n: nat, p: nat)
    requires n <= |keys| && p < |docs|
    ensures AfterDatabases(docs, keys, renames, n)[p] == Image(docs[p], keys, renames, n)
  {
    if n > 0 {
      AfterDatabasesAt(docs, keys, renames, n - 1, p);
    }
  }

  lemma {:induction false} SelectedExactly(docs: seq<Document>, objects: seq<Document>, db: string, n: nat, t: Document)
    requires n <= |docs| == |objects|
    ensures t in Selected(docs, objects, db, n) <==> exists p | 0 <= p < n :: OwnedBy(docs[p], db) && objects[p] == t
  {
    if n > 0 {
      SelectedExactly(docs, objects, db, n - 1, t);
    }
  }

  lemma {:induction false} PutForExactly(docs: seq<Document>, objects: seq<Document>, keys: seq<string>, n: nat,
                                         t: Document)
    requires n <= |keys| && |docs| == |objects|
    ensures t in PutFor(docs, objects, keys, n) <==>
            exists k, p | 0 <= k < n && 0 <= p < |docs| :: OwnedBy(docs[p], keys[k]) && objects[p] == t
  {
    if n > 0 {
      PutForExactly(docs, objects, keys, n - 1, t);
      SelectedExactly(docs, objects, keys[n - 1], |docs|, t);
    }
  }

  /** A recorded template of some requested database. */
  predicate Requested(docs: seq<Document>, dbs: seq<string>, d: Document) {
    d in docs && exists db <- dbs :: OwnedBy(d, db)
  }

  lemma PutComesFrom(docs: seq<Document>, dbs: seq<string>, renames: Renames, t: Document) returns (d: Document)
    requires t in PutList(docs, dbs, renames)
    ensures Requested(docs, dbs, d) && t == ImageAfter(d, dbs, renames)
  {
    var keys := DictKeys(dbs);
    var objects := AfterDatabases(docs, keys, renames, |keys|);
    PutForExactly(docs, objects, keys, |keys|, t);
    var k, p :| 0 <= k < |keys| && 0 <= p < |docs| && OwnedBy(docs[p], keys[k]) && objects[p] == t;
    AfterDatabasesAt(docs, keys, renames, |keys|, p);
    assert keys[k] in dbs;
    d := docs[p];
  }

  lemma ImageIsPut(docs: seq<Document>, dbs: seq<string>, renames: Renames, d: Document)
    requires Requested(docs, dbs, d)
    ensures ImageAfter(d, dbs, renames) in PutList(docs, dbs, renames)
  {
    var keys := DictKeys(dbs);
    var objects := AfterDatabases(docs, keys, renames, |keys|);
    var db :| db in dbs && OwnedBy(d, db);
    var p :| 0 <= p < |docs| && docs[p] == d;
    var k :| 0 <= k < |keys| && keys[k] == db;
    AfterDatabasesAt(docs, keys, renames, |keys|, p);
    PutForExactly(docs, objects, keys, |keys|, objects[p]);
    assert OwnedBy(docs[p], keys[k]);
  }

  /** What is put are exactly the recorded templates of the requested databases, each renamed by all the
      databases it belongs to. */
  lemma PutExactly(docs: seq<Document>, dbs: seq<string>, renames: Renames, t: Document)
    ensures t in PutList(docs, dbs, renames) <==>
            exists d <- docs :: Requested(docs, dbs, d) && t == ImageAfter(d, dbs, renames)
  {
    if t in PutList(docs, dbs, renames) {
      var d := PutComesFrom(docs, dbs, renames, t);
    } else {
      forall d <- docs | Requested(docs, dbs, d)
        ensures t != ImageAfter(d, dbs, renames)
      {
        ImageIsPut(docs, dbs, renames, d);
      }
    }
  }

  /** The positions below n of templates of a database, ascending. */
  function Positions(docs: seq<Document>, db: string, n: nat): (r: seq<nat>)
    requires n <= |docs|
    ensures forall i | 0 <= i < |r| :: r[i] < n && OwnedBy(docs[r[i]], db)
    ensures forall i, j | 0 <= i < j < |r| :: r[i] < r[j]
    ensures forall p: nat | p < n && OwnedBy(docs[p], db) :: p in r
  {
    if n == 0 then [] else Positions(docs, db, n - 1) + (if OwnedBy(docs[n - 1], db) then [n - 1] else [])
  }

  lemma {:induction false} SelectedInOrder(docs: seq<Document>, objects: seq<Document>, db: string, n: nat)
    requires n <= |docs| == |objects|
    ensures var at := Positions(docs, db, n);
            && |Selected(docs, objects, db, n)| == |at|
            && forall i | 0 <= i < |at| :: Selected(docs, objects, db, n)[i] == objects[at[i]]
  {
    if n > 0 {
      SelectedInOrder(docs, objects, db, n - 1);
    }
  }

  /** The templates are put database by database, and those of one database in their recorded order. */
  lemma {:induction false} PutInOrder(docs: seq<Document>, objects: seq<Document>, keys: seq<string>, n: nat, k: nat)
    requires k < n <= |keys| && |docs| == |objects|
    ensures var before := |PutFor(docs, objects, keys, k)|;
            var at := Positions(docs, keys[k], |docs|);
            && before + |at| <= |PutFor(docs, objects, keys, n)|
            && (k + 1 == n ==> before + |at| == |PutFor(docs, objects, keys, n)|)
            && forall i | 0 <= i < |at| :: PutFor(docs, objects, keys, n)[before + i] == objects[at[i]]
  {
    if k + 1 < n {
      PutInOrder(docs, objects, keys, n - 1, k);
    } else {
      SelectedInOrder(docs, objects, keys[k], |docs|);
    }
  }

  // ----- References -----

  predicate NamedAmong(components: seq<Document>, name: string) {
    exists c <- components :: c.name == Some(name)
  }

  /** A recorded component of a requested database gets this name. */
  predicate PutUnder(components: seq<Document>, dbs: seq<string>, renames: Renames, name: string) {
    exists c <- components ::
      Requested(components, dbs, c) && NameAfter(c.name.value, dbs, renames, c.name.value) == name
  }

  lemma PutUnderExactly(components: seq<Document>, dbs: seq<string>, renames: Renames, name: string)
    ensures NamedAmong(PutList(components, dbs, renames), name) <==> PutUnder(components, dbs, renames, name)
  {
    var keys := DictKeys(dbs);
    if NamedAmong(PutList(components, dbs, renames), name) {
      var put :| put in PutList(components, dbs, renames) && put.name == Some(name);
      var c := PutComesFrom(components, dbs, renames, put);
      ImageNames(c, keys, renames, |keys|);
    } else {
      forall c <- components | Requested(components, dbs, c)
        ensures NameAfter(c.name.value, dbs, renames, c.name.value) != name
      {
        ImageNames(c, keys, renames, |keys|);
        ImageIsPut(components, dbs, renames, c);
      }
    }
  }

  /** Every reference of every template that is put names a component that is put. */
  predicate ReferencesResolve(components: seq<Document>, templates: seq<Document>, dbs: seq<string>, renames: Renames) {
    forall t <- PutList(templates, dbs, renames) ::
      forall i | 0 <= i < |ComposedOf(t)| :: NamedAmong(PutList(components, dbs, renames), ComposedOf(t)[i])
  }

  /** In terms of what was recorded: for every reference of a template of a requested database there is a
      component whose databases give it the name that the template's databases give the reference. */
  predicate ReferencesMatch(components: seq<Document>, templates: seq<Document>, dbs: seq<string>, renames: Renames) {
    forall t <- templates | Requested(templates, dbs, t) ::
      forall i | 0 <= i < |ComposedOf(t)| ::
        PutUnder(components, dbs, renames, NameAfter(t.name.value, dbs, renames, ComposedOf(t)[i]))
  }

  /** A template that is put, traced to the recorded one. */
  lemma PutReference(components: seq<Document>, templates: seq<Document>, dbs: seq<string>, renames: Renames,
                     t: Document, i: nat)
    requires ReferencesMatch(components, templates, dbs, renames)
    requires t in PutList(templates, dbs, renames) && i < |ComposedOf(t)|
    ensures NamedAmong(PutList(components, dbs, renames), ComposedOf(t)[i])
  {
    var r := PutComesFrom(templates, dbs, renames, t);
    ImageNames(r, DictKeys(dbs), renames, |DictKeys(dbs)|);
    assert PutUnder(components, dbs, renames, NameAfter(r.name.value, dbs, renames, ComposedOf(r)[i]));
    PutUnderExactly(components, dbs, renames, ComposedOf(t)[i]);
  }

  /** A recorded template, traced to the one that is put. */
  lemma RecordedReference(components: seq<Document>, templates: seq<Document>, dbs: seq<string>, renames: Renames,
                          t: Document, i: nat)
    requires ReferencesResolve(components, templates, dbs, renames)
    requires Requested(templates, dbs, t) && i < |ComposedOf(t)|
    ensures PutUnder(components, dbs, renames, NameAfter(t.name.value, dbs, renames, ComposedOf(t)[i]))
  {
    var put := ImageAfter(t, dbs, renames);
    ImageIsPut(templates, dbs, renames, t);
    ImageNames(t, DictKeys(dbs), renames, |DictKeys(dbs)|);
    assert NamedAmong(PutList(components, dbs, renames), ComposedOf(put)[i]);
    PutUnderExactly(components, dbs, renames, ComposedOf(put)[i]);
  }

  lemma ReferencesResolveExactly(components: seq<Document>, templates: seq<Document>, dbs: seq<string>,
                                 renames: Renames)
    ensures ReferencesResolve(components, templates, dbs, renames) <==>
            ReferencesMatch(components, templates, dbs, renames)
  {
    if ReferencesMatch(components, templates, dbs, renames) {
      forall t <- PutList(templates, dbs, renames), i | 0 <= i < |ComposedOf(t)|
        ensures NamedAmong(PutList(components, dbs, renames), ComposedOf(t)[i])
      {
        PutReference(components, templates, dbs, renames, t, i);
      }
    } else if ReferencesResolve(components, templates, dbs, renames) {
      forall t <- templates, i | Requested(templates, dbs, t) && 0 <= i < |ComposedOf(t)|
        ensures PutUnder(components, dbs, renames, NameAfter(t.name.value, dbs, renames, ComposedOf(t)[i]))
      {
        RecordedReference(components, templates, dbs, renames, t, i);
      }
    }
  }

  // ----- References within one database -----

  /** Both belong to the same of the requested databases. */
  predicate SameDatabases(dbs: seq<string>, x: string, y: string) {
    forall db <- dbs :: HasPrefix(x, db) <==> HasPrefix(y, db)
  }

  lemma {:induction false} CarriedAlike(x: string, y: string, keys: seq<string>, renames: Renames, n: nat, z: string)
    requires n <= |keys| && SameDatabases(keys, x, y)
    ensures Carried(x, keys, renames, n, z) == Carried(y, keys, renames, n, z)
  {
    if n > 0 {
      CarriedAlike(x, y, keys, renames, n - 1, z);
      assert keys[n - 1] in keys;
    }
  }

  /** References to recorded components of the template's own databases always resolve. */
  lemma OwnReferencesResolve(components: seq<Document>, templates: seq<Document>, dbs: seq<string>, renames: Renames)
    requires forall t <- templates | Requested(templates, dbs, t) ::
               forall i | 0 <= i < |ComposedOf(t)| ::
                 NamedAmong(components, ComposedOf(t)[i]) && SameDatabases(dbs, t.name.value, ComposedOf(t)[i])
    ensures ReferencesResolve(components, templates, dbs, renames)
  {
    forall t <- templates, i | Requested(templates, dbs, t) && 0 <= i < |ComposedOf(t)|
      ensures PutUnder(components, dbs, renames, NameAfter(t.name.value, dbs, renames, ComposedOf(t)[i]))
    {
      var x := ComposedOf(t)[i];
      var c :| c in components && c.name == Some(x);
      var db :| db in dbs && OwnedBy(t, db);
      assert OwnedBy(c, db);
      CarriedAlike(t.name.value, x, DictKeys(dbs), renames, |DictKeys(dbs)|, x);
    }
    ReferencesResolveExactly(components, templates, dbs, renames);
  }

  // ----- References between databases -----

  /** What renaming by database d alone makes of x. */
  function RenamedBy(d: string, renames: Renames, x: string): string {
    if d in renames then Rename(x, d, renames[d]) else x
  }

  /** Of the databases only k has the template. */
  predicate OnlyOwner(owner: string, keys: seq<string>, k: nat) {
    k < |keys| && forall j | 0 <= j < |keys| :: HasPrefix(owner, keys[j]) <==> j == k
  }

  lemma {:induction false} CarriedByOne(owner: string, keys: seq<string>, renames: Renames, n: nat, k: nat, x: string)
    requires n <= |keys| && OnlyOwner(owner, keys, k)
    ensures Carried(owner, keys, renames, n, x) == if k < n then RenamedBy(keys[k], renames, x) else x
  {
    if n > 0 {
      CarriedByOne(owner, keys, renames, n - 1, k, x);
    }
  }

  /** Without databases that are prefixes of one another, a template has one database. */
  lemma SoleDatabase(owner: string, dbs: seq<string>, db: string) returns (k: nat)
    requires PrefixFree(dbs) && db in dbs && HasPrefix(owner, db)
    ensures OnlyOwner(owner, DictKeys(dbs), k) && DictKeys(dbs)[k] == db
  {
    var keys := DictKeys(dbs);
    k :| 0 <= k < |keys| && keys[k] == db;
    forall j | 0 <= j < |keys| && HasPrefix(owner, keys[j])
      ensures j == k
    {
      assert keys[j] in dbs;
      PrefixesOfOneString(owner, db, keys[j]);
    }
  }

  lemma NameAfterByOne(owner: string, dbs: seq<string>, renames: Renames, db: string, x: string)
    requires PrefixFree(dbs) && db in dbs && HasPrefix(owner, db)
    ensures NameAfter(owner, dbs, renames, x) == RenamedBy(db, renames, x)
  {
    var k := SoleDatabase(owner, dbs, db);
    CarriedByOne(owner, DictKeys(dbs), renames, |DictKeys(dbs)|, k, x);
  }

  /** Then a reference to component x of database e, in a template of database d, follows its component
      exactly when both belong to one database, or renaming by d leaves x alone and x keeps its name, or
      renaming by d happens to do to x what renaming by e does. */
  lemma ReferenceFollowsExactly(owner: string, dbs: seq<string>, renames: Renames, d: string, e: string, x: string)
    requires PrefixFree(dbs) && d in dbs && e in dbs && HasPrefix(owner, d) && HasPrefix(x, e)
    ensures NameAfter(owner, dbs, renames, x) == NameAfter(x, dbs, renames, x) <==>
            || d == e
            || (if d in renames && Contains(x, d)
                then ReplaceAt(x, d, renames[d], First(x, d)) == TargetPrefix(e, renames) + x[|e|..]
                else TargetPrefix(e, renames) == e)
  {
    NameAfterByOne(owner, dbs, renames, d, x);
    NameAfterByOne(x, dbs, renames, e, x);
    RenamedByOwn(e, renames, x);
    ContainsExactly(x, d);
    if d != e && !(d in renames && Contains(x, d)) {
      assert x == e + x[|e|..];
      SamePrefix(TargetPrefix(e, renames), e, x[|e|..]);
    }
  }

  lemma RenamedByOwn(e: string, renames: Renames, x: string)
    requires HasPrefix(x, e)
    ensures RenamedBy(e, renames, x) == TargetPrefix(e, renames) + x[|e|..]
  {
    if e in renames {
      RenamePrefixed(x, e, renames[e]);
    } else {
      assert x == e + x[|e|..];
    }
  }

  lemma SamePrefix(a: string, b: string, rest: string)
    ensures a + rest == b + rest <==> a == b
  {
    if a + rest == b + rest {
      assert |a| == |b| && (a + rest)[..|a|] == a && (b + rest)[..|b|] == b;
    }
  }

  // ----- Templates under one name -----

  /** A requested template recorded as x is put under the name t. */
  predicate PutAs(docs: seq<Document>, dbs: seq<string>, renames: Renames, x: string, t: string) {
    exists d <- docs :: Requested(docs, dbs, d) && d.name == Some(x) && ImageAfter(d, dbs, renames).name == Some(t)
  }

  /** Two templates recorded under different names are put under one: the second put replaces the first. */
  predicate Overwritten(docs: seq<Document>, dbs: seq<string>, renames: Renames, x: string, y: string, t: string) {
    x != y && PutAs(docs, dbs, renames, x, t) && PutAs(docs, dbs, renames, y, t)
  }

  ghost predicate NoneOverwritten(docs: seq<Document>, dbs: seq<string>, renames: Renames) {
    forall x: string, y: string, t: string :: !Overwritten(docs, dbs, renames, x, y, t)
  }

  lemma OwnedImageName(d: Document, dbs: seq<string>, renames: Renames, db: string)
    requires PrefixFree(dbs) && db in dbs && OwnedBy(d, db)
    ensures ImageAfter(d, dbs, renames).name == Some(NewName(db, renames, d.name.value))
  {
    var x := d.name.value;
    ImageNames(d, DictKeys(dbs), renames, |DictKeys(dbs)|);
    NameAfterByOne(x, dbs, renames, db, x);
    RenamedByOwn(db, renames, x);
  }

  lemma PutAsOwned(docs: seq<Document>, dbs: seq<string>, renames: Renames, d: Document, db: string)
    requires PrefixFree(dbs) && d in docs && db in dbs && OwnedBy(d, db)
    ensures PutAs(docs, dbs, renames, d.name.value, NewName(db, renames, d.name.value))
  {
    OwnedImageName(d, dbs, renames, db);
    assert Requested(docs, dbs, d);
  }

  lemma OwnerOfPut(docs: seq<Document>, dbs: seq<string>, renames: Renames, x: string, t: string)
    returns (db: string)
    requires PrefixFree(dbs) && PutAs(docs, dbs, renames, x, t)
    ensures db in dbs && HasPrefix(x, db) && t == NewName(db, renames, x)
  {
    var d :| d in docs && Requested(docs, dbs, d) && d.name == Some(x) && ImageAfter(d, dbs, renames).name == Some(t);
    db :| db in dbs && OwnedBy(d, db);
    OwnedImageName(d, dbs, renames, db);
  }

  lemma OverlapOverwrites(dbs: seq<string>, renames: Renames, d: string, e: string) returns (docs: seq<Document>)
    requires PrefixFree(dbs) && d in dbs && e in dbs && d != e
    requires HasPrefix(TargetPrefix(d, renames), TargetPrefix(e, renames))
    ensures !NoneOverwritten(docs, dbs, renames)
  {
    var x := OverlappingNames(renames, d, e);
    var settings := Settings(None, None, None, None, false);
    var first, second := Document(Some(d), settings, None), Document(Some(x), settings, None);
    docs := [first, second];
    PutAsOwned(docs, dbs, renames, first, d);
    PutAsOwned(docs, dbs, renames, second, e);
    assert Overwritten(docs, dbs, renames, d, x, NewName(d, renames, d));
  }

  /** For prefix-free databases no template replaces another, whatever was recorded, exactly when no target
      prefix is a prefix of another. */
  lemma NoneOverwrittenExactly(dbs: seq<string>, renames: Renames)
    requires PrefixFree(dbs)
    ensures (forall docs: seq<Document> :: NoneOverwritten(docs, dbs, renames)) <==> TargetsPrefixFree(dbs, renames)
  {
    if TargetsPrefixFree(dbs, renames) {
      forall docs: seq<Document>, x: string, y: string, t: string
        ensures !Overwritten(docs, dbs, renames, x, y, t)
      {
        if PutAs(docs, dbs, renames, x, t) && PutAs(docs, dbs, renames, y, t) {
          var d := OwnerOfPut(docs, dbs, renames, x, t);
          var e := OwnerOfPut(docs, dbs, renames, y, t);
          SameTargetSameDatabase(dbs, renames, d, e, x, y);
        }
      }
    } else {
      var d, e :| d in dbs && e in dbs && d != e && HasPrefix(TargetPrefix(d, renames), TargetPrefix(e, renames));
      var docs := OverlapOverwrites(dbs, renames, d, e);
    }
  }

  // ----- A dangling reference -----

  /** A template of database "a" that is composed of a component of database "b". */
  const USER_TEMPLATE := Document(Some("a"), Settings(None, None, None, None, false),
                                  Some(Settings(None, Some(["b"]), None, None, false)))
  const COMPONENT := Document(Some("b"), Settings(None, None, None, None, false), None)

  /** When database "b" is renamed, the template that is put refers to a component that is not. */
  lemma ForeignReferenceDangles()
    ensures !ReferencesResolve([COMPONENT], [USER_TEMPLATE], ["a", "b"], map["b" := "c"])
  {
    var dbs, renames := ["a", "b"], map["b" := "c"];
    assert "a"[0] == 'a' && "b"[0] == 'b' && "c"[0] == 'c';
    assert PrefixFree(dbs);
    assert OwnedBy(USER_TEMPLATE, dbs[0]) && ComposedOf(USER_TEMPLATE) == ["b"];
    assert Requested([USER_TEMPLATE], dbs, USER_TEMPLATE);
    NameAfterByOne("a", dbs, renames, "a", "b");
    NameAfterByOne("b", dbs, renames, "b", "b");
    RenamedByOwn("b", renames, "b");
    assert !PutUnder([COMPONENT], dbs, renames, "b");
    assert ComposedOf(USER_TEMPLATE)[0] == "b";
    ReferencesResolveExactly([COMPONENT], [USER_TEMPLATE], dbs, renames);
  }
}
