/** The states of a users recovery, as the adapter reports them and the operator stores them. */
module RecoveryStates {
  datatype RecoveryState = Idle | Running | Failed | Done
}

/** Recovery of users after a switchover: one JSON Patch "add" per user, sent in batches of at most a
    hundred with up to three attempts each. A refused batch may have been applied in part. */
module UsersRecovery {
  import opened Basics
  import opened JsonPointer
  import opened RecoveryStates

  const BATCH_SIZE := 100
  const ATTEMPTS := 3

  datatype ConnectionProperties = ConnectionProperties(
    username: string, password: string, role: string, resourcePrefix: string, dbName: string)

  datatype Content = Content(attributes: map<string, string>, backendRoles: seq<string>, password: string)

  /** A patch operation "add", section 4.1 of RFC 6902. */
  datatype Change = Change(path: string, value: Content)

  type Store = map<string, Content>

  function UserContent(p: ConnectionProperties): Content {
    var role := if p.role != "" then p.role else "admin";
    var prefix := if p.resourcePrefix == "" then p.dbName else p.resourcePrefix;
    Content(map["resource_prefix" := prefix], ["dbaas_" + role], p.password)
  }

  function ChangeOf(p: ConnectionProperties): Change {
    Change("/" + p.username, UserContent(p))
  }

  function Changes(users: seq<ConnectionProperties>): seq<Change> {
    seq(|users|, i requires 0 <= i < |users| => ChangeOf(users[i]))
  }

  // ----- Applying changes -----

  function ApplyChange(store: Store, c: Change): Store {
    var key := TopLevelKey(c.path);
    if key.Some? then store[key.value := c.value] else store
  }

  function ApplyAll(store: Store, changes: seq<Change>): Store
    decreases |changes|
  {
    if changes == [] then store else ApplyAll(ApplyChange(store, changes[0]), changes[1..])
  }

  /** The changes as one map in which the last writer wins. */
  function Overrides(changes: seq<Change>): Store {
    if changes == [] then map[]
    else ApplyChange(map[], changes[0]) + Overrides(changes[1..])
  }

  lemma MergeAssociates<K, V>(a: map<K, V>, b: map<K, V>, c: map<K, V>)
    ensures (a + b) + c == a + (b + c)
  {
  }

  lemma {:induction false} ApplyAllIsOverride(store: Store, changes: seq<Change>)
    ensures ApplyAll(store, changes) == store + Overrides(changes)
    decreases |changes|
  {
    if changes != [] {
      var c, rest := changes[0], changes[1..];
      ApplyAllIsOverride(ApplyChange(store, c), rest);
      assert ApplyChange(store, c) == store + ApplyChange(map[], c);
      MergeAssociates(store, ApplyChange(map[], c), Overrides(rest));
    }
  }

  lemma {:induction false} OverridesAppend(a: seq<Change>, b: seq<Change>)
    ensures Overrides(a + b) == Overrides(a) + Overrides(b)
  {
    if a == [] {
      assert a + b == b;
    } else {
      assert (a + b)[0] == a[0] && (a + b)[1..] == a[1..] + b;
      OverridesAppend(a[1..], b);
      MergeAssociates(ApplyChange(map[], a[0]), Overrides(a[1..]), Overrides(b));
    }
  }

  // ----- What a recovery means for the users -----

  predicate Listed(users: seq<ConnectionProperties>, name: string) {
    exists p <- users :: p.username == name
  }

  /** The last entry for the name. */
  function LastEntry(users: seq<ConnectionProperties>, name: string): (p: ConnectionProperties)
    requires Listed(users, name)
    ensures p in users && p.username == name
  {
    var last := users[|users| - 1];
    if last.username == name then last else LastEntry(users[..|users| - 1], name)
  }

  /** Every listed user has the content of its last entry; every other user is as before. */
  ghost predicate Recovered(before: Store, after: Store, users: seq<ConnectionProperties>) {
    forall name: string ::
      && (name in after <==> Listed(users, name) || name in before)
      && (Listed(users, name) ==> after[name] == UserContent(LastEntry(users, name)))
      && (!Listed(users, name) && name in before ==> after[name] == before[name])
  }

  lemma OverridesSnoc(a: seq<Change>, c: Change)
    ensures Overrides(a + [c]) == ApplyChange(Overrides(a), c)
  {
    OverridesAppend(a, [c]);
    OverridesOne(c);
    ChangeIsOverride(Overrides(a), c);
  }

  lemma OverridesOne(c: Change)
    ensures Overrides([c]) == ApplyChange(map[], c)
  {
    assert [c][1..] == [] && Overrides([]) == map[];
  }

  lemma ChangeIsOverride(store: Store, c: Change)
    ensures ApplyChange(store, c) == store + ApplyChange(map[], c)
  {
  }

  lemma AddsItsUser(store: Store, p: ConnectionProperties)
    requires Plain(p.username)
    ensures ApplyChange(store, ChangeOf(p)) == store[p.username := UserContent(p)]
  {
    NameAddressesItselfExactly(p.username);
  }

  lemma ChangesSnoc(front: seq<ConnectionProperties>, last: ConnectionProperties)
    ensures Changes(front + [last]) == Changes(front) + [ChangeOf(last)]
  {
  }

  lemma {:induction false} LastWriterWins(users: seq<ConnectionProperties>, name: string)
    requires forall p <- users :: Plain(p.username)
    ensures name in Overrides(Changes(users)) <==> Listed(users, name)
    ensures Listed(users, name) ==> Overrides(Changes(users))[name] == UserContent(LastEntry(users, name))
    decreases |users|
  {
    if users != [] {
      var front, last := users[..|users| - 1], users[|users| - 1];
      assert users == front + [last];
      LastWriterWins(front, name);
      ChangesSnoc(front, last);
      OverridesSnoc(Changes(front), ChangeOf(last));
      AddsItsUser(Overrides(Changes(front)), last);
      assert Listed(users, name) <==> Listed(front, name) || last.username == name;
    }
  }

  /** For users with plain names, applying all changes in order recovers them. */
  lemma ApplyAllRecovers(store: Store, users: seq<ConnectionProperties>)
    requires forall p <- users :: Plain(p.username)
    ensures Recovered(store, ApplyAll(store, Changes(users)), users)
  {
    ApplyAllIsOverride(store, Changes(users));
    forall name: string
      ensures name in Overrides(Changes(users)) <==> Listed(users, name)
      ensures Listed(users, name) ==> Overrides(Changes(users))[name] == UserContent(LastEntry(users, name))
    {
      LastWriterWins(users, name);
    }
  }

  /** Stores that differ only in users the changes write become equal. */
  predicate AgreeOutside(a: Store, b: Store, keys: set<string>) {
    && a.Keys - keys == b.Keys - keys
    && forall k <- a.Keys - keys :: a[k] == b[k]
  }

  lemma AgreeAfterOverride(a: Store, b: Store, changes: seq<Change>)
    requires AgreeOutside(a, b, Overrides(changes).Keys)
    ensures ApplyAll(a, changes) == ApplyAll(b, changes)
  {
    ApplyAllIsOverride(a, changes);
    ApplyAllIsOverride(b, changes);
    var o := Overrides(changes);
    assert (a + o).Keys == (b + o).Keys by {
      assert (a + o).Keys == (a.Keys - o.Keys) + o.Keys;
      assert (b + o).Keys == (b.Keys - o.Keys) + o.Keys;
    }
    forall k <- (a + o).Keys
      ensures (a + o)[k] == (b + o)[k]
    {
      if k !in o {
        assert k in a.Keys - o.Keys;
      }
    }
  }

  lemma ApplyTouchesOnlyItsKeys(store: Store, changes: seq<Change>)
    ensures AgreeOutside(ApplyAll(store, changes), store, Overrides(changes).Keys)
  {
    ApplyAllIsOverride(store, changes);
  }

  // ----- Batches -----

  function Chunks<T>(s: seq<T>): (r: seq<seq<T>>)
    ensures forall i | 0 <= i < |r| :: 0 < |r[i]| <= 100
    ensures forall i | 0 <= i < |r| - 1 :: |r[i]| == 100
    decreases |s|
  {
    if s == [] then []
    else if BATCH_SIZE < |s| then [s[..BATCH_SIZE]] + Chunks(s[BATCH_SIZE..])
    else [s]
  }

  lemma {:induction false} ChunksFlatten<T>(s: seq<T>)
    ensures Flatten(Chunks(s)) == s
    decreases |s|
  {
    if BATCH_SIZE < |s| {
      ChunksFlatten(s[BATCH_SIZE..]);
      assert Chunks(s)[1..] == Chunks(s[BATCH_SIZE..]);
      assert s == s[..BATCH_SIZE] + s[BATCH_SIZE..];
    } else if s != [] {
      assert Chunks(s)[1..] == [];
      assert s + [] == s;
    }
  }

  function Remaining<T>(s: seq<T>, position: nat): seq<T> {
    if position < |s| then s[position..] else []
  }

  /** Position, number of whole chunks and elements passed belong together. */
  predicate Sliced<T(==)>(s: seq<T>, position: nat, k: nat, passed: seq<T>) {
    && k <= |Chunks(s)|
    && passed + Remaining(s, position) == s
    && Chunks(Remaining(s, position)) == Chunks(s)[k..]
  }

  lemma FirstSlice<T>(s: seq<T>)
    ensures Sliced(s, 0, 0, [])
  {
    assert Remaining(s, 0) == s && [] + s == s && Chunks(s)[0..] == Chunks(s);
  }

  lemma LastSlice<T>(s: seq<T>, position: nat, k: nat, passed: seq<T>)
    requires position >= |s| && Sliced(s, position, k, passed)
    ensures passed == s && Chunks(s)[..k] == Chunks(s) && k == |Chunks(s)|
  {
    assert passed + [] == passed;
  }

  function BatchAt<T>(s: seq<T>, position: nat): (batch: seq<T>)
    requires position < |s|
    ensures batch != []
  {
    if position + BATCH_SIZE < |s| then s[position..position + BATCH_SIZE] else s[position..]
  }

  lemma ChunkAt<T>(s: seq<T>, position: nat)
    requires position < |s|
    ensures Chunks(Remaining(s, position)) == [BatchAt(s, position)] + Chunks(Remaining(s, position + BATCH_SIZE))
    ensures Remaining(s, position) == BatchAt(s, position) + Remaining(s, position + BATCH_SIZE)
  {
    var rest := s[position..];
    if position + BATCH_SIZE < |s| {
      assert rest[..BATCH_SIZE] == BatchAt(s, position) && rest[BATCH_SIZE..] == s[position + BATCH_SIZE..];
    }
  }

  lemma DropFirst<T>(chunks: seq<T>, k: nat, first: T, rest: seq<T>)
    requires k <= |chunks| && chunks[k..] == [first] + rest
    ensures k < |chunks| && chunks[..k + 1] == chunks[..k] + [first] && chunks[k + 1..] == rest
  {
    assert chunks[k] == chunks[k..][0] && chunks[k + 1..] == chunks[k..][1..];
  }

  lemma NextSlice<T>(s: seq<T>, position: nat, k: nat, passed: seq<T>)
    requires position < |s| && Sliced(s, position, k, passed)
    ensures k < |Chunks(s)| && Chunks(s)[..k + 1] == Chunks(s)[..k] + [BatchAt(s, position)]
    ensures Sliced(s, position + BATCH_SIZE, k + 1, passed + BatchAt(s, position)) && passed + BatchAt(s, position) <= s
  {
    var rest := Remaining(s, position + BATCH_SIZE);
    ChunkAt(s, position);
    DropFirst(Chunks(s), k, BatchAt(s, position), Chunks(rest));
    AppendAssociates(passed, BatchAt(s, position), rest);
  }

  // ----- Partial and repeated application -----

  lemma ApplyAppend(store: Store, a: seq<Change>, b: seq<Change>)
    ensures ApplyAll(store, a + b) == ApplyAll(ApplyAll(store, a), b)
  {
    ApplyAllIsOverride(store, a + b);
    OverridesAppend(a, b);
    MergeAssociates(store, Overrides(a), Overrides(b));
    ApplyAllIsOverride(store, a);
    ApplyAllIsOverride(store + Overrides(a), b);
  }

  /** A store changed only by some of the batch, however often, is still that store outside it. */
  lemma PartOfBatch(store: Store, start: Store, batch: seq<Change>, n: nat)
    requires n <= |batch| && AgreeOutside(store, start, Overrides(batch).Keys)
    ensures AgreeOutside(ApplyAll(store, batch[..n]), start, Overrides(batch).Keys)
  {
    assert batch == batch[..n] + batch[n..];
    OverridesAppend(batch[..n], batch[n..]);
    ApplyTouchesOnlyItsKeys(store, batch[..n]);
    AgreeChain(ApplyAll(store, batch[..n]), store, start, Overrides(batch[..n]).Keys, Overrides(batch).Keys);
  }

  lemma AgreeChain(a: Store, b: Store, c: Store, few: set<string>, many: set<string>)
    requires few <= many && AgreeOutside(a, b, few) && AgreeOutside(b, c, many)
    ensures AgreeOutside(a, c, many)
  {
    assert a.Keys - many == (a.Keys - few) - many;
    assert b.Keys - many == (b.Keys - few) - many;
    forall k <- a.Keys - many
      ensures a[k] == c[k]
    {
      assert k in a.Keys - few && k in b.Keys - many;
    }
  }

  // ----- The adapter -----

  /** The server's answer to a patch; a refusal may have applied the first operations of it. */
  datatype Reply = Accept | Refuse(applied: nat)

  /** How many operations of the batch a refusal applied. */
  function Part(applied: nat, batch: seq<Change>): (n: nat)
    ensures n <= |batch|
  {
    if applied <= |batch| then applied else |batch|
  }

  /** How many of the next attempts are refused before one is accepted. */
  function Refusals(replies: seq<Reply>): nat {
    if replies == [] || replies[0].Accept? then 0 else 1 + Refusals(replies[1..])
  }

  function After(replies: seq<Reply>, n: nat): seq<Reply> {
    if n <= |replies| then replies[n..] else []
  }

  /** The next n batches are all accepted: none is refused three times in a row. */
  predicate AllAccepted(replies: seq<Reply>, n: nat)
    decreases n
  {
    n == 0 || (Refusals(replies) < 3 && AllAccepted(After(replies, Refusals(replies) + 1), n - 1))
  }

  /** With k of n batches accepted, the replies left decide. */
  predicate Standing(start: seq<Reply>, now: seq<Reply>, n: nat, k: nat) {
    k <= n && (AllAccepted(now, n - k) <==> AllAccepted(start, n))
  }

  lemma NextBatch(start: seq<Reply>, now: seq<Reply>, n: nat, k: nat)
    requires Standing(start, now, n, k) && k < n
    ensures if Refusals(now) < 3 then Standing(start, After(now, Refusals(now) + 1), n, k + 1)
            else !AllAccepted(start, n)
  {
  }

  lemma OneLess(replies: seq<Reply>, i: nat)
    requires i < Refusals(replies)
    ensures After(replies, i) != [] && After(replies, i)[0].Refuse?
    ensures After(replies, i)[1..] == After(replies, i + 1)
    decreases i
  {
    if i > 0 {
      OneLess(replies[1..], i - 1);
      assert replies[1..][i - 1..] == replies[i..];
    }
  }

  lemma NoneLeft(replies: seq<Reply>)
    ensures var rest := After(replies, Refusals(replies)); rest == [] || rest[0].Accept?
    ensures Refusals(replies) <= |replies|
  {
    if replies != [] && replies[0].Refuse? {
      NoneLeft(replies[1..]);
      var n := Refusals(replies[1..]);
      assert replies[1..][n..] == replies[n + 1..];
    }
  }

  class Adapter {
    var store: Store
    var recoveryState: RecoveryState
    var replies: seq<Reply>            // answers to come; once used up, the server accepts
    var sent: seq<seq<Change>>         // every patch sent
    var accepted: seq<seq<Change>>     // those the server accepted

    constructor (store: Store)
      ensures this.store == store && recoveryState == Idle && sent == [] && accepted == []
    {
      this.store, recoveryState, replies, sent, accepted := store, Idle, [], [], [];
    }

    /** Sends one patch, unless it is empty. */
    method PatchUsers(batch: seq<Change>, ghost start: Store) returns (ok: bool)
      requires AgreeOutside(store, start, Overrides(batch).Keys)
      modifies `store, `replies, `sent, `accepted
      ensures ok ==> store == ApplyAll(start, batch)
      ensures !ok ==> AgreeOutside(store, start, Overrides(batch).Keys)
      ensures sent == old(sent) + (if batch == [] then [] else [batch])
      ensures accepted == old(accepted) + (if ok && batch != [] then [batch] else [])
      ensures ok <==> batch == [] || old(replies) == [] || old(replies)[0].Accept?
      ensures !ok ==> store == ApplyAll(old(store), batch[..Part(old(replies)[0].applied, batch)])
      ensures batch != [] ==> replies == if old(replies) == [] then [] else old(replies)[1..]
    {
      AgreeAfterOverride(store, start, batch);
      if batch == [] {
        return true;
      }
      var reply := if replies == [] then Accept else replies[0];
      replies := if replies == [] then [] else replies[1..];
      sent := sent + [batch];
      ok := reply.Accept?;
      if ok {
        store := ApplyAll(store, batch);
        accepted := accepted + [batch];
      } else {
        var n := Part(reply.applied, batch);
        PartOfBatch(store, start, batch, n);
        store := ApplyAll(store, batch[..n]);
      }
    }

    /** Up to three attempts at one batch. */
    method SendBatch(batch: seq<Change>) returns (ok: bool)
      requires batch != []
      modifies `store, `replies, `sent, `accepted
      ensures ok ==> store == ApplyAll(old(store), batch)
      ensures !ok ==> AgreeOutside(store, old(store), Overrides(batch).Keys)
      ensures accepted == old(accepted) + (if ok then [batch] else [])
      ensures |sent| == |old(sent)| + (if ok then Refusals(old(replies)) + 1 else 3)
      ensures sent[..|old(sent)|] == old(sent) && forall i | |old(sent)| <= i < |sent| :: sent[i] == batch
      ensures ok <==> Refusals(old(replies)) < 3
      ensures ok ==> replies == After(old(replies), Refusals(old(replies)) + 1)
    {
      NoneLeft(replies);
      ok := false;
      var i := 0;
      while i < ATTEMPTS && !ok
        invariant 0 <= i <= ATTEMPTS && |sent| == |old(sent)| + i
        invariant if ok then i == Refusals(old(replies)) + 1 else i <= Refusals(old(replies))
        invariant replies == After(old(replies), i)
        invariant ok ==> store == ApplyAll(old(store), batch)
        invariant !ok ==> AgreeOutside(store, old(store), Overrides(batch).Keys)
        invariant accepted == old(accepted) + (if ok then [batch] else [])
        invariant sent[..|old(sent)|] == old(sent) && forall j | |old(sent)| <= j < |sent| :: sent[j] == batch
        decreases ATTEMPTS - i
      {
        if i < Refusals(old(replies)) {
          OneLess(old(replies), i);
        }
        ok := PatchUsers(batch, old(store));
        i := i + 1;
      }
    }

    /** All changes in batches; the first batch refused three times ends it. Then `k` batches were
        accepted. */
    method SendAll(changes: seq<Change>) returns (ok: bool, ghost k: nat)
      modifies `store, `replies, `sent, `accepted
      ensures ok ==> store == ApplyAll(old(store), changes) && accepted == old(accepted) + Chunks(changes)
      ensures !ok ==> AgreeOutside(store, old(store), Overrides(changes).Keys)
      ensures !ok ==> k < |Chunks(changes)| && accepted == old(accepted) + Chunks(changes)[..k]
      ensures |sent| - |old(sent)| <= ATTEMPTS * |Chunks(changes)|
      ensures ok <==> AllAccepted(old(replies), |Chunks(changes)|)
    {
      var position := 0;
      k := 0;
      ghost var passed: seq<Change> := [];
      Beginning(store, changes, accepted);
      while position < |changes|
        invariant 0 <= position && Midway(old(store), changes, old(accepted), position, k, passed, store, accepted)
        invariant |sent| - |old(sent)| <= ATTEMPTS * k
        invariant Standing(old(replies), replies, |Chunks(changes)|, k)
      {
        var batch := BatchAt(changes, position);
        Advance(old(store), changes, old(accepted), position, k, passed, store, accepted);
        NextBatch(old(replies), replies, |Chunks(changes)|, k);
        ghost var before := store;
        ok := SendBatch(batch);
        if !ok {
          FailedRunTouchesOnlyItsKeys(old(store), before, store, changes, passed, batch);
          return;
        }
        position, k, passed := position + BATCH_SIZE, k + 1, passed + batch;
      }
      LastSlice(changes, position, k, passed);
      ok := true;
    }

    /** The whole recovery. Done means every batch was accepted, in order, and the store is the old
        one overridden by all changes; failed leaves every other user alone. */
    method Recovery(users: seq<ConnectionProperties>)
      modifies `store, `recoveryState, `replies, `sent, `accepted
      ensures recoveryState == Done || recoveryState == Failed
      ensures recoveryState == Done ==> store == ApplyAll(old(store), Changes(users))
      ensures recoveryState == Done ==> accepted == old(accepted) + Chunks(Changes(users))
      ensures recoveryState == Failed ==> AgreeOutside(store, old(store), Overrides(Changes(users)).Keys)
      ensures recoveryState == Failed ==> exists k | 0 <= k < |Chunks(Changes(users))| ::
              accepted == old(accepted) + Chunks(Changes(users))[..k]
      ensures |sent| - |old(sent)| <= ATTEMPTS * |Chunks(Changes(users))|
      ensures recoveryState == Done <==> AllAccepted(old(replies), |Chunks(Changes(users))|)
    {
      var changes := Changes(users);
      var ok;
      ghost var k;
      ok, k := SendAll(changes);
      recoveryState := if ok then Done else Failed;
    }
  }

  lemma {:induction false} NoRefusals(n: nat)
    ensures AllAccepted([], n)
  {
    if n > 0 {
      NoRefusals(n - 1);
    }
  }

  /** Recovery asked for again and again, each run with its own refusals. The first run that ends in
      done leaves the same store as one clean run, whatever the failed runs before it applied. */
  method RecoverRepeatedly(adapter: Adapter, users: seq<ConnectionProperties>, runs: seq<seq<Reply>>)
    modifies adapter
    ensures adapter.recoveryState == Done ==> adapter.store == ApplyAll(old(adapter.store), Changes(users))
    ensures adapter.recoveryState == Done && (forall p <- users :: Plain(p.username)) ==>
              Recovered(old(adapter.store), adapter.store, users)
    ensures runs != [] && runs[|runs| - 1] == [] ==> adapter.recoveryState == Done
  {
    adapter.recoveryState := Idle;
    var n := 0;
    ghost var changes := Changes(users);
    NoRefusals(|Chunks(changes)|);
    if forall p <- users :: Plain(p.username) {
      ApplyAllRecovers(adapter.store, users);
    }
    while n < |runs| && adapter.recoveryState != Done
      invariant 0 <= n <= |runs|
      invariant if adapter.recoveryState == Done then adapter.store == ApplyAll(old(adapter.store), changes)
                else AgreeOutside(adapter.store, old(adapter.store), Overrides(changes).Keys)
      invariant n > 0 && runs[n - 1] == [] ==> adapter.recoveryState == Done
    {
      ghost var before := adapter.store;
      AgreeAfterOverride(before, old(adapter.store), changes);
      adapter.replies := runs[n];
      adapter.Recovery(users);
      if adapter.recoveryState == Failed {
        AgreeChain(adapter.store, before, old(adapter.store), Overrides(changes).Keys, Overrides(changes).Keys);
      }
      n := n + 1;
    }
  }

  /** Where a recovery stands after k accepted batches. */
  ghost predicate Midway(start: Store, changes: seq<Change>, earlier: seq<seq<Change>>, position: nat, k: nat,
                         passed: seq<Change>,
                         store: Store, accepted: seq<seq<Change>>)
  {
    && Sliced(changes, position, k, passed)
    && store == ApplyAll(start, passed)
    && accepted == earlier + Chunks(changes)[..k]
  }

  lemma Beginning(start: Store, changes: seq<Change>, earlier: seq<seq<Change>>)
    ensures Midway(start, changes, earlier, 0, 0, [], start, earlier)
  {
    FirstSlice(changes);
    assert earlier + Chunks(changes)[..0] == earlier;
  }

  lemma Advance(start: Store, changes: seq<Change>, earlier: seq<seq<Change>>, position: nat, k: nat,
                passed: seq<Change>,
                store: Store, accepted: seq<seq<Change>>)
    requires position < |changes| && Midway(start, changes, earlier, position, k, passed, store, accepted)
    ensures k < |Chunks(changes)| && passed + BatchAt(changes, position) <= changes
    ensures Midway(start, changes, earlier, position + BATCH_SIZE, k + 1, passed + BatchAt(changes, position),
                   ApplyAll(store, BatchAt(changes, position)), accepted + [BatchAt(changes, position)])
  {
    NextSlice(changes, position, k, passed);
    ApplyAppend(start, passed, BatchAt(changes, position));
    AppendAssociates(earlier, Chunks(changes)[..k], [BatchAt(changes, position)]);
  }

  lemma FailedRunTouchesOnlyItsKeys(start: Store, before: Store, store: Store, changes: seq<Change>,
                                    finished: seq<Change>, batch: seq<Change>)
    requires before == ApplyAll(start, finished) && finished + batch <= changes
    requires AgreeOutside(store, before, Overrides(batch).Keys)
    ensures AgreeOutside(store, start, Overrides(changes).Keys)
  {
    var rest := changes[|finished + batch|..];
    assert changes == (finished + batch) + rest;
    OverridesAppend(finished + batch, rest);
    OverridesAppend(finished, batch);
    ApplyTouchesOnlyItsKeys(start, finished);
    AgreeWider(before, start, Overrides(finished).Keys, Overrides(changes).Keys);
    AgreeChain(store, before, start, Overrides(batch).Keys, Overrides(changes).Keys);
  }

  lemma AgreeWider(a: Store, b: Store, few: set<string>, many: set<string>)
    requires few <= many && AgreeOutside(a, b, few)
    ensures AgreeOutside(a, b, many)
  {
    AgreeChain(a, b, b, few, many);
  }
}
