/** Restoring selected databases from a backup: the recorded indices are grouped by database prefix,
    renamed databases are restored one by one under their new prefix, the others together, and then
    the recorded aliases are put back. What is sent to the cluster is kept as a list of effects. */
module GranularRestore {
  import opened Basics
  import opened RestoreRenaming

  /** The files of a backup; None is a file that does not exist. */
  datatype Backup = Backup(
    databases: Option<seq<string>>,
    indices: Option<seq<string>>,
    aliases: Option<seq<IndexAliases>>)

  datatype IndexAliases = IndexAliases(index: string, aliases: Aliases)

  datatype Effect =
    | RestoreIndices(indices: seq<string>)
    | RestoreRenamed(indices: seq<string>, prefix: string, replacement: string)
    | RestoreSnapshot                            // the whole snapshot, under the recorded names
    | PutAlias(index: string, name: string, body: string)

  datatype Outcome = InvalidDatabases | Restored(effects: seq<Effect>)

  type Renames = map<string, string>

  // ----- Grouping by database -----

  function Owned(indices: seq<string>, db: string): seq<string> {
    Filter(indices, index => HasPrefix(index, db))
  }

  /** Keys of a dictionary filled in the order of the list. */
  function DictKeys(dbs: seq<string>): (r: seq<string>)
    ensures forall db :: db in r <==> db in dbs
    ensures forall i, j | 0 <= i < j < |r| :: r[i] != r[j]
  {
    if dbs == [] then []
    else
      var rest, db := DictKeys(dbs[..|dbs| - 1]), dbs[|dbs| - 1];
      assert dbs == dbs[..|dbs| - 1] + [db];
      if db in rest then rest else rest + [db]
  }

  /** The indices of a database to restore: by prefix, or the database's own name for a backup that
      recorded no index list. */
  function IndicesOf(b: Backup, db: string): seq<string> {
    if b.indices.Some? then Owned(b.indices.value, db) else [db]
  }

  // ----- What is restored -----

  /** Restoring an empty list of indices restores the whole snapshot. */
  function RenamedPart(b: Backup, db: string, renames: Renames): seq<Effect> {
    if db !in renames then []
    else if IndicesOf(b, db) == [] then [RestoreSnapshot]
    else [RestoreRenamed(IndicesOf(b, db), db, renames[db])]
  }

  function UnrenamedPart(b: Backup, db: string, renames: Renames): seq<string> {
    if db in renames then [] else IndicesOf(b, db)
  }

  function RenamedEffects(b: Backup, dbs: seq<string>, renames: Renames): seq<Effect> {
    if dbs == [] then [] else RenamedPart(b, dbs[0], renames) + RenamedEffects(b, dbs[1..], renames)
  }

  function Unrenamed(b: Backup, dbs: seq<string>, renames: Renames): seq<string> {
    if dbs == [] then [] else UnrenamedPart(b, dbs[0], renames) + Unrenamed(b, dbs[1..], renames)
  }

  function UnrenamedEffects(b: Backup, dbs: seq<string>, renames: Renames): seq<Effect> {
    if Unrenamed(b, dbs, renames) == [] then [] else [RestoreIndices(Unrenamed(b, dbs, renames))]
  }

  function PutAll(index: string, aliases: Aliases): seq<Effect> {
    seq(|aliases|, i requires 0 <= i < |aliases| => PutAlias(index, aliases[i].name, aliases[i].body))
  }

  /** The aliases of one recorded index, for a database that owns it. */
  function AliasEffects(e: IndexAliases, db: string, renames: Renames): seq<Effect> {
    if !HasPrefix(e.index, db) then []
    else if db in renames then PutAll(Rename(e.index, db, renames[db]), RenamedAliases(e.aliases, db, renames[db]))
    else PutAll(e.index, e.aliases)
  }

  function DbAliasEffects(entries: seq<IndexAliases>, db: string, renames: Renames): seq<Effect> {
    if entries == [] then [] else AliasEffects(entries[0], db, renames) + DbAliasEffects(entries[1..], db, renames)
  }

  function AllAliasEffects(entries: seq<IndexAliases>, dbs: seq<string>, renames: Renames): seq<Effect> {
    if dbs == [] then [] else DbAliasEffects(entries, dbs[0], renames) + AllAliasEffects(entries, dbs[1..], renames)
  }

  function IndexEffects(b: Backup, dbs: seq<string>, renames: Renames): seq<Effect> {
    RenamedEffects(b, dbs, renames) + UnrenamedEffects(b, dbs, renames)
  }

  function AliasPart(b: Backup, dbs: seq<string>, renames: Renames): seq<Effect> {
    if b.aliases.Some? then AllAliasEffects(b.aliases.value, dbs, renames) else []
  }

  predicate KnownDatabases(b: Backup, dbs: seq<string>) {
    b.databases.Some? && b.databases.value != [] ==> forall db <- dbs :: db in b.databases.value
  }

  predicate NothingRecorded(b: Backup) {
    b.databases.Some? && b.databases.value != [] && b.indices.None?
  }

  function Plan(b: Backup, dbs: seq<string>, renames: Renames): Outcome {
    if !KnownDatabases(b, dbs) then InvalidDatabases
    else if NothingRecorded(b) then Restored([])
    else
      var keys := DictKeys(dbs);
      Restored(IndexEffects(b, keys, renames) + AliasPart(b, keys, renames))
  }

  // ----- What is planned, and in which order -----

  /** The request is refused exactly when the backup recorded databases and one of the requested is not
      among them; databases without an index list mean that nothing is restored. */
  lemma RefusedExactly(b: Backup, dbs: seq<string>, renames: Renames)
    ensures Plan(b, dbs, renames) == InvalidDatabases <==>
            b.databases.Some? && b.databases.value != [] && exists db <- dbs :: db !in b.databases.value
    ensures Plan(b, dbs, renames).Restored? && b.databases.Some? && b.databases.value != [] && b.indices.None? ==>
            Plan(b, dbs, renames).effects == []
  {
  }

  /** The first place of a database in the request. */
  function FirstPlace(dbs: seq<string>, db: string): (i: nat)
    requires db in dbs
    ensures i < |dbs| && dbs[i] == db && db !in dbs[..i]
  {
    if dbs[0] == db then 0
    else
      assert dbs == [dbs[0]] + dbs[1..];
      var j := FirstPlace(dbs[1..], db);
      assert dbs[..j + 1] == [dbs[0]] + dbs[1..][..j];
      1 + j
  }

  lemma FirstPlaceOfFront(dbs: seq<string>, db: string)
    requires dbs != [] && db in dbs[..|dbs| - 1]
    ensures db in dbs && FirstPlace(dbs, db) == FirstPlace(dbs[..|dbs| - 1], db)
  {
    var front := dbs[..|dbs| - 1];
    var i, j := FirstPlace(dbs, db), FirstPlace(front, db);
    assert dbs[j] == front[j] == db && dbs[..j] == front[..j];
    assert i <= j && j <= i;
  }

  /** The keys keep the order in which the databases are first named. */
  lemma {:induction false} KeysInOrder(dbs: seq<string>, i: nat, j: nat)
    requires i < j < |DictKeys(dbs)|
    ensures DictKeys(dbs)[i] in dbs && DictKeys(dbs)[j] in dbs
    ensures FirstPlace(dbs, DictKeys(dbs)[i]) < FirstPlace(dbs, DictKeys(dbs)[j])
    decreases |dbs|
  {
    var front, keys := dbs[..|dbs| - 1], DictKeys(dbs);
    assert keys[i] in keys && keys[j] in keys;
    assert keys[i] in DictKeys(front);
    FirstPlaceOfFront(dbs, keys[i]);
    if j < |DictKeys(front)| {
      KeysInOrder(front, i, j);
      assert keys[j] in DictKeys(front);
      FirstPlaceOfFront(dbs, keys[j]);
    } else {
      assert keys[j] == dbs[|dbs| - 1] && keys[j] !in front;
      assert forall k | 0 <= k < |front| :: dbs[k] == front[k];
    }
  }

  /** One list after the other, in the order of the databases. */
  lemma {:induction false} PartsInOrder(b: Backup, dbs: seq<string>, renames: Renames)
    ensures RenamedEffects(b, dbs, renames)
         == Flatten(seq(|dbs|, k requires 0 <= k < |dbs| => RenamedPart(b, dbs[k], renames)))
    ensures Unrenamed(b, dbs, renames)
         == Flatten(seq(|dbs|, k requires 0 <= k < |dbs| => UnrenamedPart(b, dbs[k], renames)))
  {
    if dbs != [] {
      var rest := dbs[1..];
      PartsInOrder(b, rest, renames);
      assert seq(|dbs|, k requires 0 <= k < |dbs| => RenamedPart(b, dbs[k], renames))[1..]
          == seq(|rest|, k requires 0 <= k < |rest| => RenamedPart(b, rest[k], renames));
      assert seq(|dbs|, k requires 0 <= k < |dbs| => UnrenamedPart(b, dbs[k], renames))[1..]
          == seq(|rest|, k requires 0 <= k < |rest| => UnrenamedPart(b, rest[k], renames));
    }
  }

  lemma {:induction false} EntriesInOrder(entries: seq<IndexAliases>, db: string, renames: Renames)
    ensures DbAliasEffects(entries, db, renames)
         == Flatten(seq(|entries|, k requires 0 <= k < |entries| => AliasEffects(entries[k], db, renames)))
  {
    if entries != [] {
      var rest := entries[1..];
      EntriesInOrder(rest, db, renames);
      assert seq(|entries|, k requires 0 <= k < |entries| => AliasEffects(entries[k], db, renames))[1..]
          == seq(|rest|, k requires 0 <= k < |rest| => AliasEffects(rest[k], db, renames));
    }
  }

  lemma {:induction false} AliasesInOrder(entries: seq<IndexAliases>, dbs: seq<string>, renames: Renames)
    ensures AllAliasEffects(entries, dbs, renames)
         == Flatten(seq(|dbs|, k requires 0 <= k < |dbs| => DbAliasEffects(entries, dbs[k], renames)))
  {
    if dbs != [] {
      var rest := dbs[1..];
      AliasesInOrder(entries, rest, renames);
      assert seq(|dbs|, k requires 0 <= k < |dbs| => DbAliasEffects(entries, dbs[k], renames))[1..]
          == seq(|rest|, k requires 0 <= k < |rest| => DbAliasEffects(entries, rest[k], renames));
    }
  }

  /** Renamed databases come first, then the others together, then aliases. */
  function Rank(e: Effect): nat {
    match e
    case RestoreRenamed(_, _, _) => 0
    case RestoreSnapshot => 0
    case RestoreIndices(_) => 1
    case PutAlias(_, _, _) => 2
  }

  predicate AllOfRank(effects: seq<Effect>, rank: nat) {
    forall i | 0 <= i < |effects| :: Rank(effects[i]) == rank
  }

  lemma {:induction false} RenamedRank(b: Backup, dbs: seq<string>, renames: Renames)
    ensures AllOfRank(RenamedEffects(b, dbs, renames), 0)
  {
    if dbs != [] {
      RenamedRank(b, dbs[1..], renames);
    }
  }

  lemma AliasRank(b: Backup, dbs: seq<string>, renames: Renames)
    ensures AllOfRank(AliasPart(b, dbs, renames), 2)
  {
    if b.aliases.Some? {
      AliasEffectsOnly(b.aliases.value, dbs, renames);
    }
  }

  lemma EffectsInOrder(b: Backup, dbs: seq<string>, renames: Renames, i: nat, j: nat)
    requires Plan(b, dbs, renames).Restored? && i < j < |Plan(b, dbs, renames).effects|
    ensures Rank(Plan(b, dbs, renames).effects[i]) <= Rank(Plan(b, dbs, renames).effects[j])
  {
    var keys := DictKeys(dbs);
    RenamedRank(b, keys, renames);
    AliasRank(b, keys, renames);
    assert AllOfRank(UnrenamedEffects(b, keys, renames), 1);
  }

  // ----- The procedure -----

  method GranularRestore(b: Backup, dbs: seq<string>, renames: Renames) returns (outcome: Outcome)
    ensures outcome == Plan(b, dbs, renames)
  {
    if b.databases.Some? && b.databases.value != [] && exists db <- dbs :: db !in b.databases.value {
      return InvalidDatabases;
    }
    if NothingRecorded(b) {
      return Restored([]);
    }
    var keys := DictKeys(dbs);
    var effects := RestoreRenamedDatabases(b, keys, renames);
    var indices := CollectUnrenamed(b, keys, renames);
    if indices != [] {
      effects := effects + [RestoreIndices(indices)];
    } else {
      assert effects + [] == effects;
    }
    if b.aliases.Some? {
      var put := PutAliases(b.aliases.value, keys, renames);
      effects := effects + put;
    } else {
      assert effects + [] == effects;
    }
    outcome := Restored(effects);
  }

  method RestoreRenamedDatabases(b: Backup, keys: seq<string>, renames: Renames) returns (effects: seq<Effect>)
    ensures effects == RenamedEffects(b, keys, renames)
  {
    effects := [];
    for i := 0 to |keys|
      invariant effects + RenamedEffects(b, keys[i..], renames) == RenamedEffects(b, keys, renames)
    {
      assert keys[i..][0] == keys[i] && keys[i..][1..] == keys[i + 1..];
      AppendAssociates(effects, RenamedPart(b, keys[i], renames), RenamedEffects(b, keys[i + 1..], renames));
      if keys[i] in renames {
        var restored := RestoreDatabase(IndicesOf(b, keys[i]), keys[i], renames[keys[i]]);
        effects := effects + [restored];
      } else {
        assert effects + [] == effects;
      }
    }
  }

  method RestoreDatabase(indices: seq<string>, prefix: string, replacement: string) returns (effect: Effect)
    ensures effect == if indices == [] then RestoreSnapshot else RestoreRenamed(indices, prefix, replacement)
  {
    if indices != [] {
      effect := RestoreRenamed(indices, prefix, replacement);
    } else {
      effect := RestoreSnapshot;
    }
  }

  method CollectUnrenamed(b: Backup, keys: seq<string>, renames: Renames) returns (indices: seq<string>)
    ensures indices == Unrenamed(b, keys, renames)
  {
    indices := [];
    for i := 0 to |keys|
      invariant indices + Unrenamed(b, keys[i..], renames) == Unrenamed(b, keys, renames)
    {
      assert keys[i..][0] == keys[i] && keys[i..][1..] == keys[i + 1..];
      AppendAssociates(indices, UnrenamedPart(b, keys[i], renames), Unrenamed(b, keys[i + 1..], renames));
      if keys[i] !in renames {
        indices := indices + IndicesOf(b, keys[i]);
      } else {
        assert indices + [] == indices;
      }
    }
  }

  method PutAliases(entries: seq<IndexAliases>, keys: seq<string>, renames: Renames) returns (effects: seq<Effect>)
    ensures effects == AllAliasEffects(entries, keys, renames)
  {
    effects := [];
    for i := 0 to |keys|
      invariant effects + AllAliasEffects(entries, keys[i..], renames) == AllAliasEffects(entries, keys, renames)
    {
      assert keys[i..][0] == keys[i] && keys[i..][1..] == keys[i + 1..];
      AppendAssociates(effects, DbAliasEffects(entries, keys[i], renames),
                       AllAliasEffects(entries, keys[i + 1..], renames));
      effects := effects + DbAliasEffects(entries, keys[i], renames);
    }
  }

  // ----- How often an index is restored -----

  /** The recorded indices an effect restores; the snapshot holds all of them. */
  function Sources(e: Effect, snapshot: seq<string>): seq<string> {
    match e
    case RestoreIndices(indices) => indices
    case RestoreRenamed(indices, _, _) => indices
    case RestoreSnapshot => snapshot
    case PutAlias(_, _, _) => []
  }

  function Times(effects: seq<Effect>, snapshot: seq<string>, x: string): nat {
    if effects == [] then 0 else multiset(Sources(effects[0], snapshot))[x] + Times(effects[1..], snapshot, x)
  }

  /** The number of requested databases an index belongs to. */
  function Owners(dbs: seq<string>, x: string): nat {
    if dbs == [] then 0 else (if HasPrefix(x, dbs[0]) then 1 else 0) + Owners(dbs[1..], x)
  }

  lemma {:induction false} OwnedCount(indices: seq<string>, db: string, x: string)
    ensures multiset(Owned(indices, db))[x] == if HasPrefix(x, db) then multiset(indices)[x] else 0
  {
    if indices != [] {
      OwnedCount(indices[1..], db, x);
      assert indices == [indices[0]] + indices[1..];
    }
  }

  lemma {:induction false} TimesAppend(a: seq<Effect>, b: seq<Effect>, snapshot: seq<string>, x: string)
    ensures Times(a + b, snapshot, x) == Times(a, snapshot, x) + Times(b, snapshot, x)
  {
    if a == [] {
      assert a + b == b;
    } else {
      assert (a + b)[0] == a[0] && (a + b)[1..] == a[1..] + b;
      TimesAppend(a[1..], b, snapshot, x);
    }
  }

  /** Every renamed database has an index of its own. */
  predicate AllOwnSome(indices: seq<string>, dbs: seq<string>, renames: Renames) {
    forall db <- dbs :: db in renames ==> Owned(indices, db) != []
  }

  function OwnedTimes(indices: seq<string>, dbs: seq<string>, x: string): nat {
    if dbs == [] then 0 else multiset(Owned(indices, dbs[0]))[x] + OwnedTimes(indices, dbs[1..], x)
  }

  lemma {:induction false} OwnedTimesExactly(indices: seq<string>, dbs: seq<string>, x: string)
    ensures OwnedTimes(indices, dbs, x) == multiset(indices)[x] * Owners(dbs, x)
  {
    if dbs != [] {
      OwnedTimesExactly(indices, dbs[1..], x);
      OwnedCount(indices, dbs[0], x);
    }
  }

  lemma PartTimes(b: Backup, db: string, renames: Renames, x: string)
    requires b.indices.Some? && (db in renames ==> Owned(b.indices.value, db) != [])
    ensures Times(RenamedPart(b, db, renames), b.indices.value, x) + multiset(UnrenamedPart(b, db, renames))[x]
         == multiset(Owned(b.indices.value, db))[x]
  {
    if db in renames {
      assert RenamedPart(b, db, renames)[1..] == [];
    }
  }

  lemma {:induction false} IndexEffectsTimes(b: Backup, dbs: seq<string>, renames: Renames, x: string)
    requires b.indices.Some? && AllOwnSome(b.indices.value, dbs, renames)
    ensures Times(RenamedEffects(b, dbs, renames), b.indices.value, x) + multiset(Unrenamed(b, dbs, renames))[x]
         == OwnedTimes(b.indices.value, dbs, x)
  {
    if dbs != [] {
      var db, rest := dbs[0], dbs[1..];
      assert db in dbs && forall d <- rest :: d in dbs;
      IndexEffectsTimes(b, rest, renames, x);
      PartTimes(b, db, renames, x);
      TimesAppend(RenamedPart(b, db, renames), RenamedEffects(b, rest, renames), b.indices.value, x);
    }
  }

  predicate OnlyAliases(effects: seq<Effect>) {
    forall i | 0 <= i < |effects| :: effects[i].PutAlias?
  }

  lemma {:induction false} AliasEffectsOnly(entries: seq<IndexAliases>, dbs: seq<string>, renames: Renames)
    ensures OnlyAliases(AllAliasEffects(entries, dbs, renames))
  {
    if dbs != [] {
      DbAliasEffectsOnly(entries, dbs[0], renames);
      AliasEffectsOnly(entries, dbs[1..], renames);
    }
  }

  lemma {:induction false} DbAliasEffectsOnly(entries: seq<IndexAliases>, db: string, renames: Renames)
    ensures OnlyAliases(DbAliasEffects(entries, db, renames))
  {
    if entries != [] {
      DbAliasEffectsOnly(entries[1..], db, renames);
    }
  }

  lemma {:induction false} AliasesRestoreNothing(effects: seq<Effect>, snapshot: seq<string>, x: string)
    requires OnlyAliases(effects)
    ensures Times(effects, snapshot, x) == 0
  {
    if effects != [] {
      AliasesRestoreNothing(effects[1..], snapshot, x);
    }
  }

  lemma AliasPartTimes(b: Backup, dbs: seq<string>, renames: Renames, snapshot: seq<string>, x: string)
    ensures Times(AliasPart(b, dbs, renames), snapshot, x) == 0
  {
    if b.aliases.Some? {
      AliasEffectsOnly(b.aliases.value, dbs, renames);
    }
    AliasesRestoreNothing(AliasPart(b, dbs, renames), snapshot, x);
  }

  lemma IndexPartTimes(b: Backup, dbs: seq<string>, renames: Renames, x: string)
    requires b.indices.Some? && AllOwnSome(b.indices.value, dbs, renames)
    ensures Times(IndexEffects(b, dbs, renames), b.indices.value, x) == OwnedTimes(b.indices.value, dbs, x)
  {
    var second := UnrenamedEffects(b, dbs, renames);
    IndexEffectsTimes(b, dbs, renames, x);
    TimesAppend(RenamedEffects(b, dbs, renames), second, b.indices.value, x);
    assert second != [] ==> second[1..] == [];
    assert Times(second, b.indices.value, x) == multiset(Unrenamed(b, dbs, renames))[x];
  }

  /** When every renamed database has a recorded index, an index is restored once for each requested
      database it belongs to. */
  lemma TimesExactly(b: Backup, dbs: seq<string>, renames: Renames, x: string)
    requires b.indices.Some? && Plan(b, dbs, renames).Restored? && AllOwnSome(b.indices.value, dbs, renames)
    ensures Times(Plan(b, dbs, renames).effects, b.indices.value, x)
         == multiset(b.indices.value)[x] * Owners(DictKeys(dbs), x)
  {
    var keys := DictKeys(dbs);
    TimesAppend(IndexEffects(b, keys, renames), AliasPart(b, keys, renames), b.indices.value, x);
    IndexPartTimes(b, keys, renames, x);
    AliasPartTimes(b, keys, renames, b.indices.value, x);
    OwnedTimesExactly(b.indices.value, keys, x);
  }

  // ----- Exactly once -----

  predicate PrefixFree(dbs: seq<string>) {
    forall i, j | 0 <= i < |dbs| && 0 <= j < |dbs| && dbs[i] != dbs[j] :: !HasPrefix(dbs[i], dbs[j])
  }

  predicate NoRepeats(xs: seq<string>) {
    forall i, j | 0 <= i < j < |xs| :: xs[i] != xs[j]
  }

  lemma {:induction false} NoRepeatsCount(xs: seq<string>, x: string)
    requires NoRepeats(xs)
    ensures multiset(xs)[x] == if x in xs then 1 else 0
  {
    if xs != [] {
      assert xs == [xs[0]] + xs[1..];
      NoRepeatsCount(xs[1..], x);
    }
  }

  lemma {:induction false} SoleOwner(dbs: seq<string>, x: string)
    requires PrefixFree(dbs) && NoRepeats(dbs)
    ensures Owners(dbs, x) <= 1
    ensures Owners(dbs, x) == 1 <==> exists db <- dbs :: HasPrefix(x, db)
  {
    if dbs != [] {
      var rest := dbs[1..];
      assert forall i | 0 <= i < |rest| :: rest[i] == dbs[i + 1];
      SoleOwner(rest, x);
      if HasPrefix(x, dbs[0]) && exists db <- rest :: HasPrefix(x, db) {
        var db :| db in rest && HasPrefix(x, db);
        PrefixesOfOneString(x, dbs[0], db);
      }
      assert dbs == [dbs[0]] + rest;
    }
  }

  lemma {:induction false} TwoOwners(dbs: seq<string>, x: string, i: nat, j: nat)
    requires i < j < |dbs| && HasPrefix(x, dbs[i]) && HasPrefix(x, dbs[j])
    ensures Owners(dbs, x) >= 2
  {
    if i > 0 {
      TwoOwners(dbs[1..], x, i - 1, j - 1);
    } else {
      OneOwner(dbs[1..], x, j - 1);
    }
  }

  lemma {:induction false} OneOwner(dbs: seq<string>, x: string, j: nat)
    requires j < |dbs| && HasPrefix(x, dbs[j])
    ensures Owners(dbs, x) >= 1
  {
    if j > 0 {
      OneOwner(dbs[1..], x, j - 1);
    }
  }

  /** Every recorded index of the requested databases is restored exactly once, and nothing else is. */
  predicate RestoresOnce(b: Backup, dbs: seq<string>, renames: Renames)
    requires b.indices.Some? && Plan(b, dbs, renames).Restored?
  {
    forall x <- b.indices.value ::
      Times(Plan(b, dbs, renames).effects, b.indices.value, x) == if exists db <- dbs :: HasPrefix(x, db) then 1 else 0
  }

  lemma PrefixFreeRestoresOnce(b: Backup, dbs: seq<string>, renames: Renames)
    requires b.indices.Some? && NoRepeats(b.indices.value) && Plan(b, dbs, renames).Restored?
    requires AllOwnSome(b.indices.value, dbs, renames) && PrefixFree(dbs)
    ensures RestoresOnce(b, dbs, renames)
  {
    var keys := DictKeys(dbs);
    assert PrefixFree(keys) by {
      forall i, j | 0 <= i < |keys| && 0 <= j < |keys| && keys[i] != keys[j]
        ensures !HasPrefix(keys[i], keys[j])
      {
        assert keys[i] in dbs && keys[j] in dbs;
      }
    }
    forall x <- b.indices.value
      ensures Times(Plan(b, dbs, renames).effects, b.indices.value, x) == if exists db <- dbs ::
              HasPrefix(x, db) then 1 else 0
    {
      TimesExactly(b, dbs, renames, x);
      NoRepeatsCount(b.indices.value, x);
      SoleOwner(keys, x);
    }
  }

  /** A backup that recorded every index once, and one at least for every renamed database. */
  predicate Usable(b: Backup, dbs: seq<string>, renames: Renames) {
    && b.indices.Some? && NoRepeats(b.indices.value) && AllOwnSome(b.indices.value, dbs, renames)
    && Plan(b, dbs, renames).Restored?
  }

  lemma OwnsItself(indices: seq<string>, dbs: seq<string>, renames: Renames)
    requires forall db <- dbs :: db in indices
    ensures AllOwnSome(indices, dbs, renames)
  {
    forall db <- dbs
      ensures Owned(indices, db) != []
    {
      FilterMember(indices, index => HasPrefix(index, db), db);
    }
  }

  lemma TimesOfDistinct(b: Backup, dbs: seq<string>, renames: Renames, x: string)
    requires Usable(b, dbs, renames) && x in b.indices.value
    ensures Times(Plan(b, dbs, renames).effects, b.indices.value, x) == Owners(DictKeys(dbs), x)
  {
    TimesExactly(b, dbs, renames, x);
    NoRepeatsCount(b.indices.value, x);
  }

  lemma OwnedByBoth(dbs: seq<string>, x: string, y: string)
    requires x in dbs && y in dbs && x != y && HasPrefix(x, y)
    ensures Owners(dbs, x) >= 2
  {
    var i :| 0 <= i < |dbs| && dbs[i] == x;
    var j :| 0 <= j < |dbs| && dbs[j] == y;
    if i < j {
      TwoOwners(dbs, x, i, j);
    } else {
      TwoOwners(dbs, x, j, i);
    }
  }

  /** A backup with an index named like each database. */
  function NamesakeBackup(dbs: seq<string>): Backup {
    Backup(None, Some(DictKeys(dbs)), None)
  }

  lemma NamesakeUsable(dbs: seq<string>, renames: Renames)
    ensures Usable(NamesakeBackup(dbs), dbs, renames)
  {
    OwnsItself(DictKeys(dbs), dbs, renames);
  }

  /** There an index is restored twice if one database is a prefix of another. */
  lemma RestoredTwice(dbs: seq<string>, renames: Renames, x: string, y: string)
    requires x in dbs && y in dbs && x != y && HasPrefix(x, y)
    ensures Usable(NamesakeBackup(dbs), dbs, renames)
    ensures Times(Plan(NamesakeBackup(dbs), dbs, renames).effects, DictKeys(dbs), x) >= 2
  {
    NamesakeUsable(dbs, renames);
    TimesOfDistinct(NamesakeBackup(dbs), dbs, renames, x);
    OwnedByBoth(DictKeys(dbs), x, y);
  }

  lemma NamesakeNotOnce(dbs: seq<string>, renames: Renames, x: string, y: string)
    requires x in dbs && y in dbs && x != y && HasPrefix(x, y)
    ensures Usable(NamesakeBackup(dbs), dbs, renames) && !RestoresOnce(NamesakeBackup(dbs), dbs, renames)
  {
    RestoredTwice(dbs, renames, x, y);
    assert x in DictKeys(dbs);
  }

  /** Restoring exactly once, whatever a usable backup recorded, is the same as requesting databases
      none of which is a prefix of another. */
  lemma RestoresOnceExactly(dbs: seq<string>, renames: Renames)
    ensures (forall b | Usable(b, dbs, renames) :: RestoresOnce(b, dbs, renames)) <==> PrefixFree(dbs)
  {
    if PrefixFree(dbs) {
      forall b | Usable(b, dbs, renames)
        ensures RestoresOnce(b, dbs, renames)
      {
        PrefixFreeRestoresOnce(b, dbs, renames);
      }
    } else {
      var m, n :| 0 <= m < |dbs| && 0 <= n < |dbs| && dbs[m] != dbs[n] && HasPrefix(dbs[m], dbs[n]);
      NamesakeNotOnce(dbs, renames, dbs[m], dbs[n]);
    }
  }

  /** The whole snapshot is restored exactly when some renamed database has no recorded index. */
  lemma SnapshotRestoredExactly(b: Backup, dbs: seq<string>, renames: Renames)
    requires b.indices.Some? && Plan(b, dbs, renames).Restored?
    ensures RestoreSnapshot in Plan(b, dbs, renames).effects <==> !AllOwnSome(b.indices.value, dbs, renames)
  {
    var keys := DictKeys(dbs);
    SnapshotInRenamed(b, keys, renames);
    if b.aliases.Some? {
      AliasEffectsOnly(b.aliases.value, keys, renames);
    }
    assert RestoreSnapshot !in AliasPart(b, keys, renames);
  }

  /** It does happen: database "a" is renamed, and only an index of another database was recorded. */
  lemma EmptyDatabaseRestoresSnapshot()
    ensures Plan(Backup(None, Some(["b"]), None), ["a"], map["a" := "c"]) == Restored([RestoreSnapshot])
  {
    var b, dbs, renames := Backup(None, Some(["b"]), None), ["a"], map["a" := "c"];
    assert dbs[..0] == [] && DictKeys([]) == [] && DictKeys(dbs) == dbs;
    assert ["b"][1..] == [] && dbs[1..] == [];
    assert "b"[0] == 'b' && "a"[0] == 'a';
    assert Owned(["b"], "a") == [];
    assert RenamedEffects(b, dbs, renames) == [RestoreSnapshot];
    assert Unrenamed(b, dbs, renames) == [];
  }

  lemma {:induction false} SnapshotInRenamed(b: Backup, dbs: seq<string>, renames: Renames)
    requires b.indices.Some?
    ensures RestoreSnapshot in RenamedEffects(b, dbs, renames) <==> !AllOwnSome(b.indices.value, dbs, renames)
  {
    if dbs != [] {
      SnapshotInRenamed(b, dbs[1..], renames);
      assert dbs == [dbs[0]] + dbs[1..];
    }
  }
}
