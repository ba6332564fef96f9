/** The check that a follower has caught up before replication is stopped: one reading of every
    matching index, then up to five rounds over the indices that lagged behind at first. */
module ReplicationCheck {
  import opened Basics

  const ATTEMPTS := 5

  datatype Stats = Stats(status: string, leader: int, follower: int)

  /** What the cluster answers; None is a request that failed. */
  datatype Env = Env(
    patternValid: bool,
    matches: string -> bool,
    first: nat -> Option<Stats>,              // reading of the index at a position of the list
    later: (nat, string) -> Option<Stats>)    // reading of an index in a round

  datatype Result =
    | CaughtUp
    | InvalidPattern
    | Unreadable
    | FailedIndices(indices: seq<string>)
    | OutOfAttempts

  predicate Replicating(s: Stats) {
    s.status == "SYNCING" || s.status == "BOOTSTRAPPING"
  }

  predicate Lags(s: Stats) {
    Replicating(s) && s.leader != s.follower
  }

  // ----- What the check decides -----

  predicate ReadableAt(env: Env, names: seq<string>, i: nat)
    requires i < |names|
  {
    env.matches(names[i]) ==> env.first(i).Some?
  }

  /** The position is one the first loop records as lagging. */
  predicate LagsAt(env: Env, names: seq<string>, i: nat)
    requires i < |names|
  {
    env.matches(names[i]) && env.first(i).Some? && Lags(env.first(i).value)
  }

  predicate FailedAt(env: Env, names: seq<string>, i: nat)
    requires i < |names|
  {
    env.matches(names[i]) && env.first(i).Some? && !Replicating(env.first(i).value)
  }

  /** Every matching index was readable and replicating at first. */
  predicate FirstReadingGood(env: Env, names: seq<string>) {
    && (env.patternValid || names == [])
    && forall i: nat | i < |names| :: ReadableAt(env, names, i) && !FailedAt(env, names, i)
  }

  predicate RoundReadable(env: Env, lagging: map<string, int>, r: nat) {
    forall name <- lagging :: env.later(r, name).Some?
  }

  /** In round r every index that lagged has reached the leader checkpoint of its first reading. */
  predicate RoundConfirms(env: Env, lagging: map<string, int>, r: nat) {
    forall name <- lagging :: env.later(r, name).Some? && env.later(r, name).value.follower >= lagging[name]
  }

  /** Some round within the attempts confirms all of them together, and no reading before it failed. */
  predicate ConfirmedTogether(env: Env, lagging: map<string, int>, rounds: nat) {
    exists r: nat | r < rounds ::
      RoundConfirms(env, lagging, r) && forall q: nat | q < r :: RoundReadable(env, lagging, q)
  }

  /** The first n rounds could be read and none confirmed all of them. */
  predicate Unconfirmed(env: Env, lagging: map<string, int>, n: nat) {
    forall q: nat | q < n :: RoundReadable(env, lagging, q) && !RoundConfirms(env, lagging, q)
  }

  predicate NeverConfirmed(env: Env, lagging: map<string, int>) {
    Unconfirmed(env, lagging, ATTEMPTS)
  }

  lemma OneMoreRound(env: Env, lagging: map<string, int>, r: nat)
    requires Unconfirmed(env, lagging, r) && RoundReadable(env, lagging, r) && !RoundConfirms(env, lagging, r)
    ensures Unconfirmed(env, lagging, r + 1)
  {
  }

  lemma ConfirmedAt(env: Env, lagging: map<string, int>, r: nat)
    requires r < ATTEMPTS && Unconfirmed(env, lagging, r) && RoundConfirms(env, lagging, r)
    ensures ConfirmedTogether(env, lagging, ATTEMPTS) && !NeverConfirmed(env, lagging)
  {
  }

  lemma CutShort(env: Env, lagging: map<string, int>, r: nat)
    requires r < ATTEMPTS && Unconfirmed(env, lagging, r) && !RoundReadable(env, lagging, r)
    ensures !ConfirmedTogether(env, lagging, ATTEMPTS) && !NeverConfirmed(env, lagging)
  {
    assert !RoundConfirms(env, lagging, r);
  }

  lemma NoneConfirmed(env: Env, lagging: map<string, int>)
    requires NeverConfirmed(env, lagging)
    ensures !ConfirmedTogether(env, lagging, ATTEMPTS)
  {
  }

  function Lagging(env: Env, names: seq<string>, n: nat): map<string, int>
    requires n <= |names|
  {
    if n == 0 then map[]
    else
      var earlier := Lagging(env, names, n - 1);
      if LagsAt(env, names, n - 1) then earlier[names[n - 1] := env.first(n - 1).value.leader] else earlier
  }

  function Failures(env: Env, names: seq<string>, n: nat): (r: seq<string>)
    requires n <= |names|
    ensures r == [] <==> forall i: nat | i < n :: !FailedAt(env, names, i)
  {
    if n == 0 then []
    else Failures(env, names, n - 1) + (if FailedAt(env, names, n - 1) then [names[n - 1]] else [])
  }

  /** With distinct names, an index is awaited exactly if it lagged, up to its first leader checkpoint. */
  lemma {:induction false} LaggingExactly(env: Env, names: seq<string>, n: nat, i: nat)
    requires n <= |names| && i < |names|
    requires forall a, b | 0 <= a < b < |names| :: names[a] != names[b]
    ensures names[i] in Lagging(env, names, n) <==> i < n && LagsAt(env, names, i)
    ensures names[i] in Lagging(env, names, n) ==> Lagging(env, names, n)[names[i]] == env.first(i).value.leader
  {
    if n > 0 {
      LaggingExactly(env, names, n - 1, i);
    }
  }

  /** The indices reported as failed are the matching ones read with any status but the two of replication. */
  lemma {:induction false} FailuresExactly(env: Env, names: seq<string>, n: nat, name: string)
    requires n <= |names|
    ensures name in Failures(env, names, n) <==>
            exists i: nat | i < n :: names[i] == name && env.matches(name) && Failing(env.first(i))
  {
    if n > 0 {
      FailuresExactly(env, names, n - 1, name);
      assert FailedAt(env, names, n - 1) <==> env.matches(names[n - 1]) && Failing(env.first(n - 1));
    }
  }

  predicate Failing(reading: Option<Stats>) {
    reading.Some? && reading.value.status !in ["SYNCING", "BOOTSTRAPPING"]
  }

  /** The index replicated at first and its follower had not reached the leader. */
  predicate Awaited(env: Env, names: seq<string>, i: nat)
    requires i < |names|
  {
    && env.matches(names[i]) && env.first(i).Some? && !Failing(env.first(i))
    && env.first(i).value.leader != env.first(i).value.follower
  }

  predicate ReachedIn(env: Env, names: seq<string>, r: nat, i: nat)
    requires i < |names| && env.first(i).Some?
  {
    env.later(r, names[i]).Some? && env.later(r, names[i]).value.follower >= env.first(i).value.leader
  }

  lemma {:induction false} OnlyNamesLag(env: Env, names: seq<string>, n: nat, name: string)
    requires n <= |names| && name in Lagging(env, names, n)
    ensures name in names[..n]
  {
    if n > 0 && name in Lagging(env, names, n - 1) {
      OnlyNamesLag(env, names, n - 1, name);
      assert names[..n] == names[..n - 1] + [names[n - 1]];
    }
  }

  /** A round confirms exactly when in it every index that lagged has reached the leader checkpoint of its own
      first reading. */
  lemma ConfirmsExactly(env: Env, names: seq<string>, r: nat)
    requires forall a, b | 0 <= a < b < |names| :: names[a] != names[b]
    ensures RoundConfirms(env, Lagging(env, names, |names|), r) <==>
            forall i: nat | i < |names| && Awaited(env, names, i) :: ReachedIn(env, names, r, i)
  {
    var lagging := Lagging(env, names, |names|);
    forall i: nat | i < |names|
      ensures names[i] in lagging <==> Awaited(env, names, i)
      ensures names[i] in lagging ==> lagging[names[i]] == env.first(i).value.leader
    {
      LaggingExactly(env, names, |names|, i);
    }
    forall name <- lagging
      ensures exists i: nat | i < |names| :: names[i] == name
    {
      OnlyNamesLag(env, names, |names|, name);
      assert name in names;
    }
  }

  // ----- The check -----

  method UpdateInProgress(env: Env, lagging: map<string, int>, r: nat) returns (rest: Option<map<string, int>>)
    ensures rest.Some? <==> RoundReadable(env, lagging, r)
    ensures rest.Some? ==> (rest.value == map[] <==> RoundConfirms(env, lagging, r))
    ensures rest.Some? ==> forall name <- rest.value ::
              name in lagging && rest.value[name] == lagging[name] && env.later(r, name).value.follower < lagging[name]
  {
    var behind: map<string, int> := map[];
    var todo := lagging.Keys;
    while todo != {}
      invariant todo <= lagging.Keys && behind.Keys <= lagging.Keys - todo
      invariant forall name <- lagging.Keys - todo :: env.later(r, name).Some?
      invariant forall name <- lagging.Keys - todo :: name in behind <==>
                env.later(r, name).value.follower < lagging[name]
      invariant forall name <- behind :: behind[name] == lagging[name]
      decreases todo
    {
      var name :| name in todo;
      var stats := env.later(r, name);
      if stats.None? {
        return None;
      }
      if stats.value.follower < lagging[name] {
        behind := behind[name := lagging[name]];
      }
      todo := todo - {name};
    }
    assert behind != map[] ==> exists name :: name in behind;
    return Some(behind);
  }

  /** The first reading of every matching index: the lagging ones with their leader checkpoints. */
  method ReadFirst(env: Env, names: seq<string>) returns (result: Result, inProgress: map<string, int>)
    ensures result.CaughtUp? <==> FirstReadingGood(env, names)
    ensures result.CaughtUp? ==> inProgress == Lagging(env, names, |names|)
    ensures result.FailedIndices? <==>
            && env.patternValid && (forall i: nat | i < |names| :: ReadableAt(env, names, i))
            && Failures(env, names, |names|) != []
    ensures result.FailedIndices? ==> result.indices == Failures(env, names, |names|)
    ensures result.InvalidPattern? <==> !env.patternValid && names != []
    ensures !result.OutOfAttempts?
  {
    inProgress := map[];
    var failed: seq<string> := [];
    var i := 0;
    while i < |names|
      invariant 0 <= i <= |names|
      invariant inProgress == Lagging(env, names, i) && failed == Failures(env, names, i)
      invariant forall j: nat | j < i :: ReadableAt(env, names, j)
      invariant i > 0 ==> env.patternValid
    {
      if !env.patternValid {
        return InvalidPattern, inProgress;
      }
      if env.matches(names[i]) {
        var stats := env.first(i);
        if stats.None? {
          assert !ReadableAt(env, names, i);
          return Unreadable, inProgress;
        }
        if stats.value.status == "SYNCING" || stats.value.status == "BOOTSTRAPPING" {
          if stats.value.leader != stats.value.follower {
            inProgress := inProgress[names[i] := stats.value.leader];
          }
        } else {
          failed := failed + [names[i]];
        }
      }
      i := i + 1;
    }
    result := if |failed| > 0 then FailedIndices(failed) else CaughtUp;
  }

  /** One round; confirmed when no index is left behind. */
  method TryRound(env: Env, lagging: map<string, int>, r: nat) returns (readable: bool, confirmed: bool)
    ensures readable <==> RoundReadable(env, lagging, r)
    ensures confirmed <==> RoundConfirms(env, lagging, r)
  {
    var rest := UpdateInProgress(env, lagging, r);
    return rest.Some?, rest.Some? && |rest.value| == 0;
  }

  /** Up to five rounds, each over all indices that lagged at first. */
  method AwaitProgress(env: Env, inProgress: map<string, int>) returns (result: Result, rounds: nat)
    ensures result.CaughtUp? || result.Unreadable? || result.OutOfAttempts?
    ensures result.CaughtUp? <==> ConfirmedTogether(env, inProgress, ATTEMPTS)
    ensures rounds <= ATTEMPTS
    ensures result.CaughtUp? ==> rounds > 0 && RoundConfirms(env, inProgress, rounds - 1)
    ensures result.OutOfAttempts? ==> rounds == ATTEMPTS
    ensures result.OutOfAttempts? <==> NeverConfirmed(env, inProgress)
  {
    rounds := 0;
    var attempts := ATTEMPTS;
    while attempts > 0
      invariant attempts + rounds == ATTEMPTS && attempts >= 0
      invariant Unconfirmed(env, inProgress, rounds)
    {
      var readable, confirmed := TryRound(env, inProgress, rounds);
      if !readable {
        CutShort(env, inProgress, rounds);
        return Unreadable, rounds;
      }
      if confirmed {
        ConfirmedAt(env, inProgress, rounds);
        return CaughtUp, rounds + 1;
      }
      OneMoreRound(env, inProgress, rounds);
      attempts, rounds := attempts - 1, rounds + 1;
    }
    NoneConfirmed(env, inProgress);
    return OutOfAttempts, rounds;
  }

  /** Success means exactly: all matching indices replicated at first, and one round out of five
      confirmed every initially lagging index at once with no failed reading up to it. */
  method ExecuteReplicationCheck(env: Env, names: seq<string>) returns (result: Result, rounds: nat)
    ensures result.CaughtUp? <==>
            FirstReadingGood(env, names) && ConfirmedTogether(env, Lagging(env, names, |names|), ATTEMPTS)
    ensures rounds <= 5
    ensures result.CaughtUp? ==> rounds > 0 && RoundConfirms(env, Lagging(env, names, |names|), rounds - 1)
    ensures result.FailedIndices? <==>
            && env.patternValid && (forall i: nat | i < |names| :: ReadableAt(env, names, i))
            && Failures(env, names, |names|) != []
    ensures result.FailedIndices? ==> rounds == 0 && result.indices == Failures(env, names, |names|)
    ensures result.OutOfAttempts? ==> rounds == 5
    ensures result.OutOfAttempts? <==> FirstReadingGood(env, names) && NeverConfirmed(env, Lagging(env, names, |names|))
    ensures result.InvalidPattern? <==> !env.patternValid && names != []
  {
    var inProgress;
    result, inProgress := ReadFirst(env, names);
    rounds := 0;
    if result.CaughtUp? {
      result, rounds := AwaitProgress(env, inProgress);
    }
  }

  /** What success means for an index: it did not lag when it was first read, or its follower was
      read at or beyond the leader checkpoint of that first reading, in the one confirming round. */
  lemma SuccessCoversEveryIndex(env: Env, names: seq<string>, r: nat, i: nat)
    requires FirstReadingGood(env, names) && RoundConfirms(env, Lagging(env, names, |names|), r)
    requires forall a, b | 0 <= a < b < |names| :: names[a] != names[b]
    requires i < |names| && env.matches(names[i])
    ensures env.first(i).Some? && !Failing(env.first(i))
    ensures || env.first(i).value.follower == env.first(i).value.leader
            || (env.later(r, names[i]).Some? && env.later(r, names[i]).value.follower >= env.first(i).value.leader)
  {
    assert ReadableAt(env, names, i) && !FailedAt(env, names, i);
    LaggingExactly(env, names, |names|, i);
  }
}
