/** Under which names a granular restore brings indices back, and which aliases it puts on them. */
module RestoredNames {
  import opened Basics
  import opened RestoreRenaming
  import opened GranularRestore

  function TargetPrefix(db: string, renames: Renames): string {
    if db in renames then renames[db] else db
  }

  /** The name of an index of a database after the restore. */
  function NewName(db: string, renames: Renames, x: string): string
    requires HasPrefix(x, db)
  {
    TargetPrefix(db, renames) + x[|db|..]
  }

  function TargetOf(e: Effect, x: string): string {
    if e.RestoreRenamed? then Rename(x, e.prefix, e.replacement) else x
  }

  predicate RestoredAs(effects: seq<Effect>, snapshot: seq<string>, x: string, t: string) {
    exists e <- effects :: x in Sources(e, snapshot) && t == TargetOf(e, x)
  }

  lemma {:induction false} RenamedEffectExactly(b: Backup, dbs: seq<string>, renames: Renames, e: Effect)
    requires b.indices.Some? && AllOwnSome(b.indices.value, dbs, renames)
    ensures e in RenamedEffects(b, dbs, renames) <==>
            exists db <- dbs :: db in renames && e == RestoreRenamed(Owned(b.indices.value, db), db, renames[db])
  {
    if dbs != [] {
      assert dbs == [dbs[0]] + dbs[1..];
      assert forall db <- dbs[1..] :: db in dbs;
      RenamedEffectExactly(b, dbs[1..], renames, e);
    }
  }

  lemma {:induction false} UnrenamedExactly(b: Backup, dbs: seq<string>, renames: Renames, x: string)
    requires b.indices.Some?
    ensures x in Unrenamed(b, dbs, renames) <==>
            exists db <- dbs :: db !in renames && x in Owned(b.indices.value, db)
  {
    if dbs != [] {
      assert dbs == [dbs[0]] + dbs[1..];
      UnrenamedExactly(b, dbs[1..], renames, x);
    }
  }

  lemma OwnedExactly(indices: seq<string>, db: string, x: string)
    ensures x in Owned(indices, db) <==> x in indices && HasPrefix(x, db)
  {
    FilterMember(indices, index => HasPrefix(index, db), x);
  }

  predicate OwnedAs(indices: seq<string>, dbs: seq<string>, renames: Renames, x: string, t: string) {
    exists db <- dbs :: x in indices && HasPrefix(x, db) && t == NewName(db, renames, x)
  }

  lemma RenamedRestoreAs(b: Backup, dbs: seq<string>, renames: Renames, x: string, t: string, db: string)
    requires b.indices.Some? && AllOwnSome(b.indices.value, dbs, renames) && db in dbs && db in renames
    ensures (x in b.indices.value && HasPrefix(x, db) && t == NewName(db, renames, x)) <==>
            var e := RestoreRenamed(Owned(b.indices.value, db), db, renames[db]);
            e in RenamedEffects(b, dbs, renames) && x in Sources(e, b.indices.value) && t == TargetOf(e, x)
  {
    RenamedEffectExactly(b, dbs, renames, RestoreRenamed(Owned(b.indices.value, db), db, renames[db]));
    OwnedExactly(b.indices.value, db, x);
    if HasPrefix(x, db) {
      RenamePrefixed(x, db, renames[db]);
    }
  }

  lemma UnrenamedKeepName(x: string, db: string, renames: Renames)
    requires HasPrefix(x, db) && db !in renames
    ensures NewName(db, renames, x) == x
  {
    assert x == x[..|db|] + x[|db|..];
  }

  lemma RestoredIsOwned(b: Backup, dbs: seq<string>, renames: Renames, x: string, t: string, e: Effect)
    requires b.indices.Some? && AllOwnSome(b.indices.value, dbs, renames)
    requires e in IndexEffects(b, dbs, renames) && x in Sources(e, b.indices.value) && t == TargetOf(e, x)
    ensures OwnedAs(b.indices.value, dbs, renames, x, t)
  {
    if e in RenamedEffects(b, dbs, renames) {
      RenamedEffectExactly(b, dbs, renames, e);
      var db :| db in dbs && db in renames && e == RestoreRenamed(Owned(b.indices.value, db), db, renames[db]);
      RenamedRestoreAs(b, dbs, renames, x, t, db);
    } else {
      assert e == RestoreIndices(Unrenamed(b, dbs, renames));
      UnrenamedExactly(b, dbs, renames, x);
      var db :| db in dbs && db !in renames && x in Owned(b.indices.value, db);
      OwnedExactly(b.indices.value, db, x);
      UnrenamedKeepName(x, db, renames);
    }
  }

  lemma OwnedIsRestored(b: Backup, dbs: seq<string>, renames: Renames, x: string, db: string)
    requires b.indices.Some? && AllOwnSome(b.indices.value, dbs, renames)
    requires db in dbs && x in b.indices.value && HasPrefix(x, db)
    ensures RestoredAs(IndexEffects(b, dbs, renames), b.indices.value, x, NewName(db, renames, x))
  {
    if db in renames {
      RenamedRestoreAs(b, dbs, renames, x, NewName(db, renames, x), db);
      assert RestoreRenamed(Owned(b.indices.value, db), db, renames[db]) in IndexEffects(b, dbs, renames);
    } else {
      UnrenamedExactly(b, dbs, renames, x);
      OwnedExactly(b.indices.value, db, x);
      UnrenamedKeepName(x, db, renames);
      assert RestoreIndices(Unrenamed(b, dbs, renames)) in IndexEffects(b, dbs, renames);
    }
  }

  /** A restore brings back exactly the recorded indices of the requested databases, each with the
      prefix of its database replaced. */
  lemma RestoredAsExactly(b: Backup, dbs: seq<string>, renames: Renames, x: string, t: string)
    requires Usable(b, dbs, renames)
    ensures RestoredAs(Plan(b, dbs, renames).effects, b.indices.value, x, t) <==>
            OwnedAs(b.indices.value, dbs, renames, x, t)
  {
    var keys := DictKeys(dbs);
    if b.aliases.Some? {
      AliasEffectsOnly(b.aliases.value, keys, renames);
    }
    if RestoredAs(Plan(b, dbs, renames).effects, b.indices.value, x, t) {
      var e :| e in Plan(b, dbs, renames).effects && x in Sources(e, b.indices.value) && t == TargetOf(e, x);
      assert e !in AliasPart(b, keys, renames);
      RestoredIsOwned(b, keys, renames, x, t, e);
    }
    if OwnedAs(b.indices.value, dbs, renames, x, t) {
      var db :| db in dbs && x in b.indices.value && HasPrefix(x, db) && t == NewName(db, renames, x);
      OwnedIsRestored(b, keys, renames, x, db);
    }
  }

  // ----- Collisions -----

  predicate TargetsPrefixFree(dbs: seq<string>, renames: Renames) {
    forall d <- dbs, e <- dbs | d != e :: !HasPrefix(TargetPrefix(d, renames), TargetPrefix(e, renames))
  }

  /** Two indices end up under one name. */
  ghost predicate Collides(b: Backup, dbs: seq<string>, renames: Renames, x: string, y: string, t: string)
    requires Usable(b, dbs, renames)
  {
    && x != y
    && RestoredAs(Plan(b, dbs, renames).effects, b.indices.value, x, t)
    && RestoredAs(Plan(b, dbs, renames).effects, b.indices.value, y, t)
  }

  ghost predicate CollisionFree(b: Backup, dbs: seq<string>, renames: Renames)
    requires Usable(b, dbs, renames)
  {
    forall x: string, y: string, t: string :: !Collides(b, dbs, renames, x, y, t)
  }

  lemma SameTargetSameDatabase(dbs: seq<string>, renames: Renames, d: string, e: string, x: string, y: string)
    requires TargetsPrefixFree(dbs, renames) && d in dbs && e in dbs && HasPrefix(x, d) && HasPrefix(y, e)
    requires NewName(d, renames, x) == NewName(e, renames, y)
    ensures x == y
  {
    var t := NewName(d, renames, x);
    PrefixesOfOneString(t, TargetPrefix(d, renames), TargetPrefix(e, renames));
    assert d == e;
    assert x == x[..|d|] + x[|d|..] && y == y[..|d|] + y[|d|..];
    assert x[|d|..] == t[|TargetPrefix(d, renames)|..] == y[|d|..];
  }

  lemma PrefixFreeTargetsDoNotCollide(b: Backup, dbs: seq<string>, renames: Renames)
    requires Usable(b, dbs, renames) && TargetsPrefixFree(dbs, renames)
    ensures CollisionFree(b, dbs, renames)
  {
    forall x: string, y: string, t: string
      ensures !Collides(b, dbs, renames, x, y, t)
    {
      RestoredAsExactly(b, dbs, renames, x, t);
      RestoredAsExactly(b, dbs, renames, y, t);
      if OwnedAs(b.indices.value, dbs, renames, x, t) && OwnedAs(b.indices.value, dbs, renames, y, t) {
        var d :| d in dbs && HasPrefix(x, d) && t == NewName(d, renames, x);
        var e :| e in dbs && HasPrefix(y, e) && t == NewName(e, renames, y);
        SameTargetSameDatabase(dbs, renames, d, e, x, y);
      }
    }
  }

  /** A backup that recorded an index named like each database, and the index `x`. */
  function BackupWith(dbs: seq<string>, x: string): Backup {
    Backup(None, Some(if x in DictKeys(dbs) then DictKeys(dbs) else DictKeys(dbs) + [x]), None)
  }

  lemma BackupWithUsable(dbs: seq<string>, renames: Renames, x: string)
    ensures Usable(BackupWith(dbs, x), dbs, renames)
  {
    OwnsItself(BackupWith(dbs, x).indices.value, dbs, renames);
  }

  lemma OwnedAsOneCollide(b: Backup, dbs: seq<string>, renames: Renames, x: string, y: string, t: string)
    requires Usable(b, dbs, renames) && x != y
    requires OwnedAs(b.indices.value, dbs, renames, x, t) && OwnedAs(b.indices.value, dbs, renames, y, t)
    ensures Collides(b, dbs, renames, x, y, t)
  {
    RestoredAsExactly(b, dbs, renames, x, t);
    RestoredAsExactly(b, dbs, renames, y, t);
  }

  lemma OwnedByAs(indices: seq<string>, dbs: seq<string>, renames: Renames, db: string, x: string)
    requires db in dbs && x in indices && HasPrefix(x, db)
    ensures OwnedAs(indices, dbs, renames, x, NewName(db, renames, x))
  {
  }

  /** When the new prefix of d starts with that of e, an index of e gets the name that index d gets. */
  lemma OverlappingNames(renames: Renames, d: string, e: string) returns (x: string)
    requires HasPrefix(TargetPrefix(d, renames), TargetPrefix(e, renames)) && !HasPrefix(d, e)
    ensures HasPrefix(x, e) && x != d && NewName(e, renames, x) == NewName(d, renames, d)
  {
    var t := TargetPrefix(d, renames);
    x := e + t[|TargetPrefix(e, renames)|..];
    assert x[|e|..] == t[|TargetPrefix(e, renames)|..];
  }

  /** So an index of each lands on one name. */
  lemma OverlappingTargetsCollide(dbs: seq<string>, renames: Renames, d: string, e: string)
    returns (b: Backup, x: string, t: string)
    requires PrefixFree(dbs) && d in dbs && e in dbs && d != e
    requires HasPrefix(TargetPrefix(d, renames), TargetPrefix(e, renames))
    ensures Usable(b, dbs, renames) && Collides(b, dbs, renames, d, x, t)
  {
    x := OverlappingNames(renames, d, e);
    t := NewName(d, renames, d);
    b := BackupWith(dbs, x);
    BackupWithUsable(dbs, renames, x);
    OwnedByAs(b.indices.value, dbs, renames, d, d);
    OwnedByAs(b.indices.value, dbs, renames, e, x);
    OwnedAsOneCollide(b, dbs, renames, d, x, t);
  }

  /** Indices never collide, whatever a usable backup recorded, exactly when no target prefix is a
      prefix of another. */
  lemma CollisionFreeExactly(dbs: seq<string>, renames: Renames)
    requires PrefixFree(dbs)
    ensures (forall b | Usable(b, dbs, renames) :: CollisionFree(b, dbs, renames)) <==> TargetsPrefixFree(dbs, renames)
  {
    if TargetsPrefixFree(dbs, renames) {
      forall b | Usable(b, dbs, renames)
        ensures CollisionFree(b, dbs, renames)
      {
        PrefixFreeTargetsDoNotCollide(b, dbs, renames);
      }
    } else {
      var d, e :| d in dbs && e in dbs && d != e && HasPrefix(TargetPrefix(d, renames), TargetPrefix(e, renames));
      var b, x, t := OverlappingTargetsCollide(dbs, renames, d, e);
      assert !CollisionFree(b, dbs, renames);
    }
  }

  // ----- Aliases -----

  lemma {:induction false} AliasOfOneDatabase(entries: seq<IndexAliases>, db: string, renames: Renames, put: Effect)
    ensures put in DbAliasEffects(entries, db, renames) <==> exists e <- entries :: put in AliasEffects(e, db, renames)
  {
    if entries != [] {
      assert entries == [entries[0]] + entries[1..];
      AliasOfOneDatabase(entries[1..], db, renames, put);
    }
  }

  lemma {:induction false} AliasOfSomeDatabase(entries: seq<IndexAliases>, dbs: seq<string>, renames: Renames,
                                               put: Effect)
    ensures put in AllAliasEffects(entries, dbs, renames) <==>
            exists db <- dbs, e <- entries :: put in AliasEffects(e, db, renames)
  {
    if dbs != [] {
      assert dbs == [dbs[0]] + dbs[1..];
      AliasOfOneDatabase(entries, dbs[0], renames, put);
      AliasOfSomeDatabase(entries, dbs[1..], renames, put);
    }
  }

  lemma AliasTarget(e: IndexAliases, db: string, renames: Renames, put: Effect)
    requires put in AliasEffects(e, db, renames)
    ensures put.PutAlias? && HasPrefix(e.index, db) && put.index == NewName(db, renames, e.index)
  {
    if db in renames {
      RenamePrefixed(e.index, db, renames[db]);
    } else {
      UnrenamedKeepName(e.index, db, renames);
    }
  }

  /** Aliases were recorded only for recorded indices, each dictionary with distinct names. */
  predicate AliasesRecorded(b: Backup)
    requires b.indices.Some?
  {
    b.aliases.Some? ==> forall e <- b.aliases.value :: e.index in b.indices.value && IsDict(e.aliases)
  }

  /** Every alias is put on an index that this restore brought back. */
  lemma AliasNamesRestoredIndex(b: Backup, dbs: seq<string>, renames: Renames, put: Effect)
    requires Usable(b, dbs, renames) && AliasesRecorded(b)
    requires put in Plan(b, dbs, renames).effects && put.PutAlias?
    ensures exists x <- b.indices.value :: RestoredAs(Plan(b, dbs, renames).effects, b.indices.value, x, put.index)
  {
    var keys := DictKeys(dbs);
    NoAliasAmongIndexEffects(b, keys, renames, put);
    AliasOfSomeDatabase(b.aliases.value, keys, renames, put);
    var db, e :| db in keys && e in b.aliases.value && put in AliasEffects(e, db, renames);
    AliasTarget(e, db, renames, put);
    assert OwnedAs(b.indices.value, dbs, renames, e.index, put.index);
    RestoredAsExactly(b, dbs, renames, e.index, put.index);
  }

  lemma RestoredByMore(a: seq<Effect>, b: seq<Effect>, snapshot: seq<string>, x: string, t: string)
    requires a <= b && RestoredAs(a, snapshot, x, t)
    ensures RestoredAs(b, snapshot, x, t)
  {
    var e :| e in a && x in Sources(e, snapshot) && t == TargetOf(e, x);
    assert e in b;
  }

  lemma IndexEffectRanks(b: Backup, dbs: seq<string>, renames: Renames, e: Effect)
    requires e in IndexEffects(b, dbs, renames)
    ensures !e.PutAlias?
  {
    RenamedRank(b, dbs, renames);
  }

  lemma PrefixBefore(a: seq<Effect>, b: seq<Effect>, i: nat)
    requires i < |a + b| && (a + b)[i].PutAlias? && forall e <- a :: !e.PutAlias?
    ensures a <= (a + b)[..i]
  {
    assert i >= |a|;
  }

  lemma IndexEffectsBeforeAlias(b: Backup, dbs: seq<string>, renames: Renames, i: nat)
    requires b.indices.Some? && Plan(b, dbs, renames).Restored? && i < |Plan(b, dbs, renames).effects|
    requires Plan(b, dbs, renames).effects[i].PutAlias?
    ensures IndexEffects(b, DictKeys(dbs), renames) <= Plan(b, dbs, renames).effects[..i]
  {
    var keys := DictKeys(dbs);
    forall e <- IndexEffects(b, keys, renames)
      ensures !e.PutAlias?
    {
      IndexEffectRanks(b, keys, renames, e);
    }
    PrefixBefore(IndexEffects(b, keys, renames), AliasPart(b, keys, renames), i);
  }

  /** The index is there when the alias is put on it: the effects before restore a recorded index under
      that name. */
  lemma AliasComesAfterItsIndex(b: Backup, dbs: seq<string>, renames: Renames, i: nat)
    requires Usable(b, dbs, renames) && AliasesRecorded(b)
    requires i < |Plan(b, dbs, renames).effects| && Plan(b, dbs, renames).effects[i].PutAlias?
    ensures exists x <- b.indices.value ::
              RestoredAs(Plan(b, dbs, renames).effects[..i], b.indices.value, x, Plan(b, dbs, renames).effects[i].index)
  {
    var keys, put := DictKeys(dbs), Plan(b, dbs, renames).effects[i];
    NoAliasAmongIndexEffects(b, keys, renames, put);
    AliasOfSomeDatabase(b.aliases.value, keys, renames, put);
    var db, e :| db in keys && e in b.aliases.value && put in AliasEffects(e, db, renames);
    AliasTarget(e, db, renames, put);
    OwnedIsRestored(b, keys, renames, e.index, db);
    IndexEffectsBeforeAlias(b, dbs, renames, i);
    RestoredByMore(IndexEffects(b, keys, renames), Plan(b, dbs, renames).effects[..i], b.indices.value, e.index,
                   put.index);
  }

  // ----- Backups without an index list -----

  lemma {:induction false} RenamedOwnNames(b: Backup, dbs: seq<string>, renames: Renames, e: Effect)
    requires b.indices.None?
    ensures e in RenamedEffects(b, dbs, renames) <==>
            exists db <- dbs :: db in renames && e == RestoreRenamed([db], db, renames[db])
  {
    if dbs != [] {
      assert dbs == [dbs[0]] + dbs[1..];
      RenamedOwnNames(b, dbs[1..], renames, e);
    }
  }

  lemma {:induction false} UnrenamedOwnNames(b: Backup, dbs: seq<string>, renames: Renames, x: string)
    requires b.indices.None?
    ensures x in Unrenamed(b, dbs, renames) <==> x in dbs && x !in renames
  {
    if dbs != [] {
      assert dbs == [dbs[0]] + dbs[1..];
      UnrenamedOwnNames(b, dbs[1..], renames, x);
    }
  }

  lemma OwnNameRenamed(x: string, q: string)
    ensures Rename(x, x, q) == q
  {
    RenamePrefixed(x, x, q);
    assert q + x[|x|..] == q;
  }

  lemma OwnNameIsRestored(b: Backup, dbs: seq<string>, renames: Renames, x: string)
    requires b.indices.None? && x in dbs
    ensures RestoredAs(IndexEffects(b, dbs, renames), [], x, TargetPrefix(x, renames))
  {
    if x in renames {
      var e := RestoreRenamed([x], x, renames[x]);
      RenamedOwnNames(b, dbs, renames, e);
      OwnNameRenamed(x, renames[x]);
      assert e in IndexEffects(b, dbs, renames) && x in Sources(e, []);
    } else {
      UnrenamedOwnNames(b, dbs, renames, x);
      assert RestoreIndices(Unrenamed(b, dbs, renames)) in IndexEffects(b, dbs, renames);
    }
  }

  lemma OnlyOwnNames(b: Backup, dbs: seq<string>, renames: Renames, x: string, e: Effect)
    requires b.indices.None? && e in IndexEffects(b, dbs, renames) && x in Sources(e, [])
    ensures x in dbs && TargetOf(e, x) == TargetPrefix(x, renames)
  {
    if e in RenamedEffects(b, dbs, renames) {
      RenamedOwnNames(b, dbs, renames, e);
      OwnNameRenamed(x, renames[x]);
    } else {
      UnrenamedOwnNames(b, dbs, renames, x);
    }
  }

  /** A backup that recorded neither databases nor indices: exactly the indices named like the requested
      databases are restored, each under the new name of its database. */
  lemma OwnNamesRestoredExactly(b: Backup, dbs: seq<string>, renames: Renames, x: string, t: string)
    requires b.indices.None? && (b.databases.None? || b.databases.value == [])
    ensures Plan(b, dbs, renames).Restored?
    ensures RestoredAs(Plan(b, dbs, renames).effects, [], x, t) <==> x in dbs && t == TargetPrefix(x, renames)
  {
    var keys := DictKeys(dbs);
    assert x in keys <==> x in dbs;
    OwnNamesOfPlan(b, keys, renames, x, t);
  }

  lemma OwnNamesOfPlan(b: Backup, keys: seq<string>, renames: Renames, x: string, t: string)
    requires b.indices.None?
    ensures RestoredAs(IndexEffects(b, keys, renames) + AliasPart(b, keys, renames), [], x, t) <==>
            x in keys && t == TargetPrefix(x, renames)
  {
    var first, last := IndexEffects(b, keys, renames), AliasPart(b, keys, renames);
    if x in keys {
      OwnNameIsRestored(b, keys, renames, x);
      RestoredByMore(first, first + last, [], x, TargetPrefix(x, renames));
    }
    if RestoredAs(first + last, [], x, t) {
      var e := SourceEffect(first, last, x, t) by {
        AliasRank(b, keys, renames);
      }
      OnlyOwnNames(b, keys, renames, x, e);
    }
  }

  lemma SourceEffect(first: seq<Effect>, last: seq<Effect>, x: string, t: string) returns (e: Effect)
    requires RestoredAs(first + last, [], x, t) && AllOfRank(last, 2)
    ensures e in first && x in Sources(e, []) && t == TargetOf(e, x)
  {
    e :| e in first + last && x in Sources(e, []) && t == TargetOf(e, x);
    assert e !in last;
  }

  lemma NoAliasAmongIndexEffects(b: Backup, keys: seq<string>, renames: Renames, put: Effect)
    requires put.PutAlias?
    ensures put !in IndexEffects(b, keys, renames)
  {
    if put in IndexEffects(b, keys, renames) {
      IndexEffectRanks(b, keys, renames, put);
    }
  }

  function AliasName(db: string, renames: Renames, name: string): string {
    if db in renames then Rename(name, db, renames[db]) else name
  }

  /** Alias i of a recorded index of the database, renamed like the index, unless a later alias of the
      index gets the same name. */
  predicate PutFrom(e: IndexAliases, db: string, renames: Renames, i: nat, put: Effect) {
    && HasPrefix(e.index, db) && i < |e.aliases|
    && (db in renames ==> LastUnder(e.aliases, db, renames[db], i))
    && put == PutAlias(NewName(db, renames, e.index), AliasName(db, renames, e.aliases[i].name), e.aliases[i].body)
  }

  ghost predicate PutFromEntry(e: IndexAliases, db: string, renames: Renames, put: Effect) {
    exists i: nat :: PutFrom(e, db, renames, i, put)
  }

  lemma PutAllExactly(index: string, aliases: Aliases, put: Effect)
    ensures put in PutAll(index, aliases) <==>
            put.PutAlias? && put.index == index && Alias(put.name, put.body) in aliases
  {
    if put.PutAlias? && put.index == index && Alias(put.name, put.body) in aliases {
      var i :| 0 <= i < |aliases| && aliases[i] == Alias(put.name, put.body);
      assert PutAll(index, aliases)[i] == put;
    }
  }

  lemma AliasOfEntryExactly(e: IndexAliases, db: string, renames: Renames, put: Effect)
    ensures put in AliasEffects(e, db, renames) <==> PutFromEntry(e, db, renames, put)
  {
    if HasPrefix(e.index, db) && put.PutAlias? {
      var a := Alias(put.name, put.body);
      if db in renames {
        var p, q := db, renames[db];
        RenamePrefixed(e.index, p, q);
        PutAllExactly(Rename(e.index, p, q), RenamedAliases(e.aliases, p, q), put);
        LastAliasKept(e.aliases, p, q, a);
        if i: nat :| KeptBy(e.aliases, p, q, i, a) && put.index == Rename(e.index, p, q) {
          assert PutFrom(e, db, renames, i, put);
        }
        if i: nat :| PutFrom(e, db, renames, i, put) {
          assert KeptBy(e.aliases, p, q, i, a);
        }
      } else {
        UnrenamedKeepName(e.index, db, renames);
        PutAllExactly(e.index, e.aliases, put);
        if a in e.aliases && put.index == e.index {
          var i :| 0 <= i < |e.aliases| && e.aliases[i] == a;
          assert PutFrom(e, db, renames, i, put);
        }
      }
    }
  }

  lemma AliasesOfEntriesExactly(entries: seq<IndexAliases>, dbs: seq<string>, renames: Renames, put: Effect)
    ensures put in AllAliasEffects(entries, dbs, renames) <==>
            exists db <- dbs, e <- entries :: PutFromEntry(e, db, renames, put)
  {
    AliasOfSomeDatabase(entries, dbs, renames, put);
    forall db <- dbs, e <- entries
      ensures put in AliasEffects(e, db, renames) <==> PutFromEntry(e, db, renames, put)
    {
      AliasOfEntryExactly(e, db, renames, put);
    }
  }

  /** The aliases a restore puts are exactly the recorded ones of the requested indices, renamed like
      their index, except those whose new name a later alias of the same index gets. */
  lemma AliasPutExactly(b: Backup, dbs: seq<string>, renames: Renames, put: Effect)
    requires Plan(b, dbs, renames).Restored? && !NothingRecorded(b) && put.PutAlias?
    ensures put in Plan(b, dbs, renames).effects <==>
            && b.aliases.Some?
            && exists db <- dbs, e <- b.aliases.value :: PutFromEntry(e, db, renames, put)
  {
    var keys := DictKeys(dbs);
    NoAliasAmongIndexEffects(b, keys, renames, put);
    if b.aliases.Some? {
      AliasesOfEntriesExactly(b.aliases.value, keys, renames, put);
    }
  }

  /** In particular every alias of a requested index is put back whose new name no later one gets. */
  lemma RecordedAliasIsPut(b: Backup, dbs: seq<string>, renames: Renames, db: string, e: IndexAliases, i: nat)
    requires Plan(b, dbs, renames).Restored? && !NothingRecorded(b) && b.aliases.Some?
    requires db in dbs && e in b.aliases.value && HasPrefix(e.index, db) && i < |e.aliases|
    requires db in renames ==> LastUnder(e.aliases, db, renames[db], i)
    ensures var a := e.aliases[i];
            PutAlias(NewName(db, renames, e.index), AliasName(db, renames, a.name), a.body)
              in Plan(b, dbs, renames).effects
  {
    var a := e.aliases[i];
    var put := PutAlias(NewName(db, renames, e.index), AliasName(db, renames, a.name), a.body);
    assert PutFrom(e, db, renames, i, put);
    assert PutFromEntry(e, db, renames, put);
    AliasPutExactly(b, dbs, renames, put);
  }

  const TWO_ALIASES := [Alias("a", "x"), Alias("b", "y")]
  const ONE_INDEX := Backup(None, Some(["a"]), Some([IndexAliases("a", TWO_ALIASES)]))

  lemma BothGetOneName()
    ensures Rename("a", "a", "b") == "b" && Rename("b", "a", "b") == "b"
    ensures NewName("a", map["a" := "b"], "a") == "b"
  {
    assert "a"[0] == 'a' && "b"[0] == 'b';
    RenamePrefixed("a", "a", "b");
    assert "b" + "a"[1..] == "b";
  }

  lemma OneIndexUsable()
    ensures Usable(ONE_INDEX, ["a"], map["a" := "b"])
  {
    OwnsItself(["a"], ["a"], map["a" := "b"]);
  }

  /** An alias does get lost: renaming "a" to "b" gives alias "a" the name of the alias after it. */
  lemma AliasIsLost()
    ensures |RenamedAliases(TWO_ALIASES, "a", "b")| < 2
    ensures Usable(ONE_INDEX, ["a"], map["a" := "b"])
    ensures PutAlias("b", "b", "x") !in Plan(ONE_INDEX, ["a"], map["a" := "b"]).effects
  {
    BothGetOneName();
    OneIndexUsable();
    assert EachRenamed(TWO_ALIASES, "a", "b")[0].name == EachRenamed(TWO_ALIASES, "a", "b")[1].name;
    NoneLostExactly(TWO_ALIASES, "a", "b");
    PutRenamedSize([], TWO_ALIASES, "a", "b");
    var renames, put := map["a" := "b"], PutAlias("b", "b", "x");
    AliasPutExactly(ONE_INDEX, ["a"], renames, put);
    assert "x"[0] == 'x' && "y"[0] == 'y';
    assert !LastUnder(TWO_ALIASES, "a", "b", 0) by {
      assert TWO_ALIASES[1].name == "b";
    }
  }
}
