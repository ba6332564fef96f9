/** The operator's resumable rolling update of OpenSearch stateful sets.

    Progress is kept in the custom resource (CR); a reconcile attempt may fail or crash at any
    request, and a request that fails may still have taken effect. The outcomes of the requests and
    the recovery of pods in between are a script given to each attempt. One generation of every set
    is considered, and Kubernetes counts a pod as updated once it is recreated, ready or not. */
module RollingUpdate {
  import opened Basics

  // ----- The cluster -----

  /** A pod of the old revision, one deleted and not recreated yet, or one of the new revision. */
  datatype Pod = Old | Missing | Fresh(ready: bool)

  predicate Down(p: Pod) {
    p.Missing? || (p.Fresh? && !p.ready)
  }

  /** A pod recovers on its own: it is recreated and becomes ready. */
  predicate PodRecovers(p: Pod, q: Pod) {
    match p
    case Old => q == p
    case Missing => !q.Old?
    case Fresh(ready) => q.Fresh? && (ready ==> q.ready)
  }

  predicate Recovers(before: seq<seq<Pod>>, after: seq<seq<Pod>>) {
    && |before| == |after|
    && forall k | 0 <= k < |before| :: SetRecovers(before[k], after[k])
  }

  predicate SetRecovers(before: seq<Pod>, after: seq<Pod>) {
    |before| == |after| && forall i | 0 <= i < |before| :: PodRecovers(before[i], after[i])
  }

  /** The progress of one stateful set in the CR status. */
  datatype Entry = Entry(generation: int, updated: seq<int>)
  datatype Phase = Unset | Running | Done

  datatype World = World(
    pods: seq<seq<Pod>>,
    saved: seq<Option<Entry>>,   // CR status: progress per stateful set
    phase: Phase,                // CR status: rolling update status
    allocation: bool,            // shard allocation is enabled on the cluster
    deletions: seq<nat>)         // pods deleted so far, per stateful set

  /** The stateful sets: replicas, current generation, and whether the update strategy is OnDelete. */
  datatype SetSpec = SetSpec(replicas: nat, generation: int, onDelete: bool)

  /** What a request came to. An error or a crash may leave the request applied. */
  datatype Io = Ok | Err(applied: bool) | Crash(applied: bool)

  /** One reply of the script, and the pods as the cluster has recovered them by then. */
  datatype Reply = Reply(io: Io, pods: seq<seq<Pod>>)

  function HealPod(p: Pod): Pod {
    if p.Old? then p else Fresh(true)
  }

  function HealSet(pods: seq<Pod>): (r: seq<Pod>)
    ensures SetRecovers(pods, r) && forall i | 0 <= i < |r| :: !Down(r[i])
  {
    seq(|pods|, i requires 0 <= i < |pods| => HealPod(pods[i]))
  }

  /** Every pod that was taken down is back and ready. */
  function Heal(pods: seq<seq<Pod>>): (r: seq<seq<Pod>>)
    ensures Recovers(pods, r) && forall k, i | 0 <= k < |r| && 0 <= i < |r[k]| :: !Down(r[k][i])
  {
    seq(|pods|, k requires 0 <= k < |pods| => HealSet(pods[k]))
  }

  datatype Outcome = Finished | Failed | Crashed

  function OutcomeOf(io: Io): Outcome {
    if io.Ok? then Finished else if io.Err? then Failed else Crashed
  }

  // ----- The progress of one set -----

  /** n-1, n-2, ..., n-m. */
  function Countdown(n: nat, m: nat): seq<int> {
    seq(m, j => n - 1 - j)
  }

  lemma CountdownMember(n: nat, m: nat, i: int)
    ensures i in Countdown(n, m) <==> n - m <= i < n
  {
    if n - m <= i < n {
      assert Countdown(n, m)[n - 1 - i] == i;
    }
  }

  function FreshCount(pods: seq<Pod>): nat {
    if pods == [] then 0 else (if pods[0].Fresh? then 1 else 0) + FreshCount(pods[1..])
  }

  predicate AllFresh(pods: seq<Pod>) {
    forall i | 0 <= i < |pods| :: pods[i].Fresh?
  }

  lemma FreshCountExactly(pods: seq<Pod>)
    ensures FreshCount(pods) <= |pods|
    ensures FreshCount(pods) == |pods| <==> AllFresh(pods)
  {
    if pods != [] {
      FreshCountExactly(pods[1..]);
      assert AllFresh(pods) <==> pods[0].Fresh? && AllFresh(pods[1..]) by {
        assert forall i | 0 < i < |pods| :: pods[i] == pods[1..][i - 1];
      }
    }
  }

  /** Nothing was deleted in this generation. */
  predicate Unstarted(spec: SetSpec, saved: Option<Entry>, pods: seq<Pod>, deletions: nat) {
    && (saved.None? || saved.value.generation != spec.generation)
    && deletions == 0 && Untouched(pods)
  }

  /** The saved list is n-1, ..., i+1; those pods are new and ready, the pods below i are untouched. */
  predicate InProgress(spec: SetSpec, saved: Option<Entry>, pods: seq<Pod>, deletions: nat, failures: nat) {
    && saved.Some? && saved.value.generation == spec.generation
    && var m := |saved.value.updated|;
       && m <= spec.replicas && saved.value.updated == Countdown(spec.replicas, m)
       && deletions <= m + failures
       && (forall i | spec.replicas - m <= i < |pods| :: pods[i] == Fresh(true))
       && (forall i | 0 <= i < spec.replicas - m - 1 && i < |pods| :: pods[i].Old?)
  }

  /** Every pod is of the new revision, and only pod 0 may still be starting. */
  predicate Complete(spec: SetSpec, pods: seq<Pod>, deletions: nat, failures: nat) {
    deletions <= spec.replicas + failures && Renewed(pods)
  }

  predicate Working(spec: SetSpec, saved: Option<Entry>, pods: seq<Pod>, deletions: nat, failures: nat) {
    Unstarted(spec, saved, pods, deletions) || InProgress(spec, saved, pods, deletions, failures)
  }

  /** What the CR tells about an unfinished set: nothing of this generation and no pod touched, or a
      list n-1, ..., i+1 of ready pods above i, and untouched pods below it. */
  predicate Recorded(spec: SetSpec, saved: Option<Entry>, pods: seq<Pod>) {
    if saved.None? || saved.value.generation != spec.generation then
      forall i | 0 <= i < |pods| :: pods[i].Old?
    else
      var i := spec.replicas - |saved.value.updated| - 1;
      && -1 <= i && saved.value.updated == Countdown(spec.replicas, |saved.value.updated|)
      && (forall j | i < j < |pods| :: pods[j] == Fresh(true))
      && (forall j | 0 <= j < i && j < |pods| :: pods[j].Old?)
  }

  predicate SetInv(spec: SetSpec, saved: Option<Entry>, pods: seq<Pod>, deletions: nat, failures: nat) {
    && |pods| == spec.replicas
    && (Working(spec, saved, pods, deletions, failures) || Complete(spec, pods, deletions, failures))
  }

  /** The invariant bounds what the operator can have taken down: at most one pod of the set. */
  lemma AtMostOnePodDown(spec: SetSpec, saved: Option<Entry>, pods: seq<Pod>, deletions: nat, failures: nat, i: nat,
                         j: nat)
    requires SetInv(spec, saved, pods, deletions, failures)
    requires i < |pods| && j < |pods| && Down(pods[i]) && Down(pods[j])
    ensures i == j
  {
  }

  lemma RecoveryKeepsSetInv(spec: SetSpec, saved: Option<Entry>, pods: seq<Pod>, after: seq<Pod>, deletions: nat,
                            failures: nat)
    requires |pods| == spec.replicas && SetRecovers(pods, after)
    ensures Working(spec, saved, pods, deletions, failures) ==> Working(spec, saved, after, deletions, failures)
    ensures Complete(spec, pods, deletions, failures) ==> Complete(spec, after, deletions, failures)
  {
  }

  /** Only the pod whose turn it is was deleted. */
  lemma DeletionKeepsProgress(spec: SetSpec, saved: Option<Entry>, pods: seq<Pod>, after: seq<Pod>, deletions: nat,
                              more: nat, failures: nat)
    requires InProgress(spec, saved, pods, deletions, failures) && |pods| == spec.replicas == |after|
    requires forall j | 0 <= j < |pods| && j != spec.replicas - 1 - |saved.value.updated| ::
             PodRecovers(pods[j], after[j])
    requires more <= deletions + 1
    ensures InProgress(spec, saved, after, more, failures + 1)
  {
  }

  lemma RecoveryKeepsProgress(spec: SetSpec, saved: Option<Entry>, pods: seq<Pod>, after: seq<Pod>, deletions: nat,
                              failures: nat)
    requires InProgress(spec, saved, pods, deletions, failures) && SetRecovers(pods, after)
    ensures InProgress(spec, saved, after, deletions, failures)
  {
  }

  /** Once its pod is ready and recorded, a turn has cost one deletion and no failure. */
  lemma RecordKeepsProgress(spec: SetSpec, entry: Entry, pods: seq<Pod>, deletions: nat, failures: nat, i: nat)
    requires InProgress(spec, Some(entry), pods, deletions, failures + 1)
    requires i < |pods| && i == spec.replicas - 1 - |entry.updated| && pods[i] == Fresh(true)
    ensures InProgress(spec, Some(entry.(updated := entry.updated + [i])), pods, deletions, failures)
  {
  }

  /** When Kubernetes reports every replica updated, the set is complete. */
  lemma ReportedIsComplete(spec: SetSpec, saved: Option<Entry>, pods: seq<Pod>, deletions: nat, failures: nat)
    requires SetInv(spec, saved, pods, deletions, failures)
    ensures FreshCount(pods) == spec.replicas ==> Complete(spec, pods, deletions, failures)
    ensures FreshCount(pods) != spec.replicas ==> Working(spec, saved, pods, deletions, failures)
  {
    FreshCountExactly(pods);
  }

  /** All pods of the set are recreated, and only pod 0 may still be starting. */
  predicate Renewed(pods: seq<Pod>) {
    AllFresh(pods) && forall i | 0 < i < |pods| :: pods[i] == Fresh(true)
  }

  predicate Untouched(pods: seq<Pod>) {
    forall i | 0 <= i < |pods| :: pods[i].Old?
  }

  /** Sets are updated one after the other: behind a set that is not finished none was touched. */
  predicate InTurn(pods: seq<seq<Pod>>) {
    forall i, j | 0 <= i < j < |pods| :: Renewed(pods[i]) || Untouched(pods[j])
  }

  predicate WorldInv(specs: seq<SetSpec>, w: World, failures: nat) {
    && Shaped(specs, w) && InTurn(w.pods)
    && forall k | 0 <= k < |specs| :: SetInv(specs[k], w.saved[k], w.pods[k], w.deletions[k], failures)
  }

  /** Of two sets that both have a pod down, the earlier one has only its pod 0 down, and counts as
      updated for Kubernetes. */
  lemma DownAcrossSets(pods: seq<seq<Pod>>, j: nat, k: nat, a: nat, b: nat)
    requires InTurn(pods) && j < k < |pods| && a < |pods[j]| && b < |pods[k]| && Down(pods[j][a]) && Down(pods[k][b])
    ensures a == 0 && FreshCount(pods[j]) == |pods[j]|
  {
    FreshCountExactly(pods[j]);
  }

  predicate AnyDown(pods: seq<Pod>) {
    exists i | 0 <= i < |pods| :: Down(pods[i])
  }

  /** The pod 0 of a set was recreated and is not ready yet. */
  predicate ZeroStarting(pods: seq<Pod>) {
    pods != [] && pods[0] == Fresh(false)
  }

  /** Two sets have a pod down together exactly when the later one has and pod 0 of the earlier one is
      starting. */
  lemma DownTogetherExactly(pods: seq<seq<Pod>>, j: nat, k: nat)
    requires InTurn(pods) && j < k < |pods|
    ensures AnyDown(pods[j]) && AnyDown(pods[k]) <==> ZeroStarting(pods[j]) && AnyDown(pods[k])
  {
    if ZeroStarting(pods[j]) {
      assert Down(pods[j][0]);
    }
  }

  /** It is the turn of set k: the sets before it are renewed, those behind it untouched. */
  predicate TurnOf(pods: seq<seq<Pod>>, k: nat) {
    && (forall j | 0 <= j < k && j < |pods| :: Renewed(pods[j]))
    && (forall j | k < j < |pods| :: Untouched(pods[j]))
  }

  predicate DownElsewhere(pods: seq<seq<Pod>>, k: nat) {
    exists j | 0 <= j < |pods| && j != k :: AnyDown(pods[j])
  }

  predicate StartingBefore(pods: seq<seq<Pod>>, k: nat) {
    exists j | 0 <= j < k && j < |pods| :: ZeroStarting(pods[j])
  }

  /** While set k is restarted, another set has a pod down exactly when pod 0 of an earlier set is
      starting. */
  lemma DownElsewhereExactly(pods: seq<seq<Pod>>, k: nat)
    requires TurnOf(pods, k)
    ensures DownElsewhere(pods, k) <==> StartingBefore(pods, k)
  {
    if StartingBefore(pods, k) {
      var j :| 0 <= j < k && j < |pods| && ZeroStarting(pods[j]);
      assert Down(pods[j][0]);
      assert AnyDown(pods[j]);
    }
    if DownElsewhere(pods, k) {
      var j :| 0 <= j < |pods| && j != k && AnyDown(pods[j]);
      var i :| 0 <= i < |pods[j]| && Down(pods[j][i]);
      assert ZeroStarting(pods[j]);
    }
  }

  lemma RecoveryKeepsTurn(before: seq<Pod>, after: seq<Pod>)
    requires SetRecovers(before, after)
    ensures Renewed(before) ==> Renewed(after)
    ensures Untouched(before) ==> Untouched(after)
  {
  }

  lemma RecoveryKeepsInTurn(before: seq<seq<Pod>>, after: seq<seq<Pod>>)
    requires Recovers(before, after) && InTurn(before)
    ensures InTurn(after)
  {
    forall i, j | 0 <= i < j < |after|
      ensures Renewed(after[i]) || Untouched(after[j])
    {
      RecoveryKeepsTurn(before[i], after[i]);
      RecoveryKeepsTurn(before[j], after[j]);
    }
  }

  predicate Shaped(specs: seq<SetSpec>, w: World) {
    && |w.pods| == |w.saved| == |w.deletions| == |specs|
    && forall k | 0 <= k < |specs| :: |w.pods[k]| == specs[k].replicas
  }

  // ----- What a request may change -----

  predicate OnlyRecovers(w: World, v: World) {
    v == w.(pods := v.pods) && Recovers(w.pods, v.pods)
  }

  /** Everything but set k is left to itself. */
  predicate OnlySet(w: World, v: World, k: nat) {
    && |v.pods| == |w.pods| && |v.saved| == |w.saved| && |v.deletions| == |w.deletions|
    && v.phase == w.phase && v.allocation == w.allocation
    && (forall j | 0 <= j < |w.pods| && j != k :: SetRecovers(w.pods[j], v.pods[j]))
    && (forall j | 0 <= j < |w.saved| && j != k :: v.saved[j] == w.saved[j])
    && (forall j | 0 <= j < |w.deletions| && j != k :: v.deletions[j] == w.deletions[j])
  }

  lemma SetRecoversTransitively(a: seq<Pod>, b: seq<Pod>, c: seq<Pod>)
    requires SetRecovers(a, b) && SetRecovers(b, c)
    ensures SetRecovers(a, c)
  {
  }

  lemma OnlySetTransitively(w: World, u: World, v: World, k: nat)
    requires OnlySet(w, u, k) && OnlySet(u, v, k)
    ensures OnlySet(w, v, k)
  {
    forall j | 0 <= j < |w.pods| && j != k
      ensures SetRecovers(w.pods[j], v.pods[j])
    {
      SetRecoversTransitively(w.pods[j], u.pods[j], v.pods[j]);
    }
  }

  /** What set k looks like when its turn comes, given the count read at the start of the attempt. */
  predicate Pending(spec: SetSpec, report: nat, saved: Option<Entry>, pods: seq<Pod>, deletions: nat, failures: nat) {
    && |pods| == spec.replicas
    && (if report == spec.replicas then Complete(spec, pods, deletions, failures)
        else Working(spec, saved, pods, deletions, failures))
  }

  predicate AllPending(specs: seq<SetSpec>, reports: seq<nat>, w: World, failures: nat)
    requires Shaped(specs, w) && |reports| == |specs|
  {
    forall j | 0 <= j < |specs| :: Pending(specs[j], reports[j], w.saved[j], w.pods[j], w.deletions[j], failures)
  }

  /** A set whose pods were all recreated at w is reported updated. */
  predicate CountedFresh(specs: seq<SetSpec>, reports: seq<nat>, w: World)
    requires Shaped(specs, w) && |reports| == |specs|
  {
    forall j | 0 <= j < |specs| && AllFresh(w.pods[j]) :: reports[j] == specs[j].replicas
  }

  lemma RecoveryKeepsCount(specs: seq<SetSpec>, reports: seq<nat>, w: World, v: World)
    requires Shaped(specs, w) && Shaped(specs, v) && |reports| == |specs| && Recovers(w.pods, v.pods)
    requires CountedFresh(specs, reports, v)
    ensures CountedFresh(specs, reports, w)
  {
    forall j | 0 <= j < |specs| && AllFresh(w.pods[j])
      ensures reports[j] == specs[j].replicas
    {
      assert SetRecovers(w.pods[j], v.pods[j]);
    }
  }

  lemma RecoversTransitively(a: seq<seq<Pod>>, b: seq<seq<Pod>>, c: seq<seq<Pod>>)
    requires Recovers(a, b) && Recovers(b, c)
    ensures Recovers(a, c)
  {
    forall j | 0 <= j < |a|
      ensures SetRecovers(a[j], c[j])
    {
      SetRecoversTransitively(a[j], b[j], c[j]);
    }
  }

  lemma RecoveryKeepsPending(specs: seq<SetSpec>, reports: seq<nat>, w: World, v: World, failures: nat)
    requires WorldInv(specs, w, failures) && |reports| <= |specs|
    requires Shaped(specs, v) && v.saved == w.saved && v.deletions == w.deletions && Recovers(w.pods, v.pods)
    ensures WorldInv(specs, v, failures)
    ensures forall j |
              0 <= j < |reports| && Pending(specs[j], reports[j], w.saved[j], w.pods[j], w.deletions[j], failures) ::
              Pending(specs[j], reports[j], v.saved[j], v.pods[j], v.deletions[j], failures)
  {
    RecoveryKeepsInTurn(w.pods, v.pods);
    forall j | 0 <= j < |specs|
      ensures SetInv(specs[j], v.saved[j], v.pods[j], v.deletions[j], failures)
      ensures j < |reports| && Pending(specs[j], reports[j], w.saved[j], w.pods[j], w.deletions[j], failures)
          ==> Pending(specs[j], reports[j], v.saved[j], v.pods[j], v.deletions[j], failures)
    {
      RecoveryKeepsSetInv(specs[j], w.saved[j], w.pods[j], v.pods[j], w.deletions[j], failures);
    }
  }

  /** Neither the saved progress nor a pod was touched; the cluster may have recovered. */
  predicate Calm(w: World, v: World) {
    v.saved == w.saved && v.deletions == w.deletions && Recovers(w.pods, v.pods)
  }

  lemma CalmTransitively(w: World, u: World, v: World)
    requires Calm(w, u) && Calm(u, v)
    ensures Calm(w, v)
  {
    RecoversTransitively(w.pods, u.pods, v.pods);
  }

  lemma CalmKeepsComplete(specs: seq<SetSpec>, w: World, v: World, failures: nat)
    requires Shaped(specs, w) && Shaped(specs, v) && Calm(w, v) && AllComplete(specs, w, failures)
    ensures AllComplete(specs, v, failures) && WorldInv(specs, v, failures) && WorldInv(specs, v, failures + 1)
  {
    forall j | 0 <= j < |specs|
      ensures Complete(specs[j], v.pods[j], v.deletions[j], failures)
    {
      RecoveryKeepsSetInv(specs[j], w.saved[j], w.pods[j], v.pods[j], w.deletions[j], failures);
    }
  }

  lemma CompleteIsInv(specs: seq<SetSpec>, w: World, failures: nat)
    requires Shaped(specs, w)
    ensures AllComplete(specs, w, failures) ==> WorldInv(specs, w, failures)
  {
  }

  lemma MoreFailures(specs: seq<SetSpec>, w: World, failures: nat)
    requires WorldInv(specs, w, failures)
    ensures WorldInv(specs, w, failures + 1)
  {
  }

  predicate AllComplete(specs: seq<SetSpec>, w: World, failures: nat)
    requires Shaped(specs, w)
  {
    forall k | 0 <= k < |specs| :: Complete(specs[k], w.pods[k], w.deletions[k], failures)
  }

  /** At the turn of set k: the sets before it are finished, those from it on that are reported updated
      are finished too, and behind one that is not reported none was touched. */
  predicate OnTurn(specs: seq<SetSpec>, reports: seq<nat>, pods: seq<seq<Pod>>, k: nat)
    requires |reports| == |specs| == |pods|
  {
    && (forall i | 0 <= i < k && i < |specs| :: Renewed(pods[i]))
    && (forall i | k <= i < |specs| && reports[i] == specs[i].replicas :: Renewed(pods[i]))
    && (forall i, j | k <= i < j < |specs| && reports[i] != specs[i].replicas :: Untouched(pods[j]))
  }

  /** The reports read so far, of sets that have recovered since `start`. */
  predicate ReadSoFar(specs: seq<SetSpec>, reports: seq<nat>, start: World, w: World, failures: nat) {
    && |reports| <= |specs| && Shaped(specs, start) && WorldInv(specs, w, failures)
    && (forall j | 0 <= j < |reports| :: Pending(specs[j], reports[j], w.saved[j], w.pods[j], w.deletions[j], failures))
    && (forall j | 0 <= j < |reports| && AllFresh(start.pods[j]) :: reports[j] == specs[j].replicas)
    && (forall i, j | 0 <= i < |reports| && i < j < |specs| && reports[i] != specs[i].replicas :: Untouched(w.pods[j]))
  }

  lemma RecoveryKeepsReading(specs: seq<SetSpec>, reports: seq<nat>, start: World, w: World, v: World, failures: nat)
    requires ReadSoFar(specs, reports, start, w, failures) && Shaped(specs, v) && Calm(w, v)
    ensures ReadSoFar(specs, reports, start, v, failures)
  {
    RecoveryKeepsPending(specs, reports, w, v, failures);
    forall i, j | 0 <= i < |reports| && i < j < |specs| && reports[i] != specs[i].replicas
      ensures Untouched(v.pods[j])
    {
      RecoveryKeepsTurn(w.pods[j], v.pods[j]);
    }
  }

  lemma ReadOneMore(specs: seq<SetSpec>, reports: seq<nat>, start: World, w: World, failures: nat)
    requires ReadSoFar(specs, reports, start, w, failures) && |reports| < |specs| && Recovers(start.pods, w.pods)
    ensures ReadSoFar(specs, reports + [FreshCount(w.pods[|reports|])], start, w, failures)
  {
    var k := |reports|;
    assert SetInv(specs[k], w.saved[k], w.pods[k], w.deletions[k], failures);
    ReportedIsComplete(specs[k], w.saved[k], w.pods[k], w.deletions[k], failures);
    FreshCountExactly(w.pods[k]);
    assert SetRecovers(start.pods[k], w.pods[k]);
    if FreshCount(w.pods[k]) != specs[k].replicas {
      assert !Renewed(w.pods[k]);
    }
  }

  lemma ReadAll(specs: seq<SetSpec>, reports: seq<nat>, start: World, w: World, failures: nat)
    requires ReadSoFar(specs, reports, start, w, failures) && |reports| == |specs|
    ensures AllPending(specs, reports, w, failures) && OnTurn(specs, reports, w.pods, 0)
            && CountedFresh(specs, reports, start)
  {
    forall i | 0 <= i < |specs| && reports[i] == specs[i].replicas
      ensures Renewed(w.pods[i])
    {
      assert Pending(specs[i], reports[i], w.saved[i], w.pods[i], w.deletions[i], failures);
    }
  }

  /** Set k was worked on, unless it was reported updated; the others recovered. */
  predicate SetTurned(specs: seq<SetSpec>, reports: seq<nat>, before: seq<seq<Pod>>, after: seq<seq<Pod>>, k: nat)
    requires |reports| == |specs| == |before| == |after| && k < |specs|
  {
    && (forall j | 0 <= j < |specs| && j != k :: SetRecovers(before[j], after[j]))
    && (reports[k] == specs[k].replicas ==> SetRecovers(before[k], after[k]))
  }

  lemma TurnKeepsOrder(specs: seq<SetSpec>, reports: seq<nat>, before: seq<seq<Pod>>, after: seq<seq<Pod>>, k: nat)
    requires |reports| == |specs| == |before| == |after| && k < |specs|
    requires OnTurn(specs, reports, before, k) && SetTurned(specs, reports, before, after, k)
    ensures InTurn(after)
    ensures Renewed(after[k]) ==> OnTurn(specs, reports, after, k + 1)
    ensures reports[k] != specs[k].replicas ==> TurnOf(after, k)
  {
    forall j | 0 <= j < |specs| && (j != k || reports[k] == specs[k].replicas)
      ensures Renewed(before[j]) ==> Renewed(after[j])
      ensures Untouched(before[j]) ==> Untouched(after[j])
    {
      RecoveryKeepsTurn(before[j], after[j]);
    }
  }

  lemma OnTurnIsInTurn(specs: seq<SetSpec>, reports: seq<nat>, pods: seq<seq<Pod>>, k: nat)
    requires |reports| == |specs| == |pods| && OnTurn(specs, reports, pods, k)
    ensures InTurn(pods)
  {
  }

  lemma RecoveryKeepsOnTurn(specs: seq<SetSpec>, reports: seq<nat>, before: seq<seq<Pod>>, after: seq<seq<Pod>>, k: nat)
    requires |reports| == |specs| == |before| && Recovers(before, after) && OnTurn(specs, reports, before, k)
    ensures OnTurn(specs, reports, after, k)
  {
    forall j | 0 <= j < |specs|
      ensures Renewed(before[j]) ==> Renewed(after[j])
      ensures Untouched(before[j]) ==> Untouched(after[j])
    {
      RecoveryKeepsTurn(before[j], after[j]);
    }
  }

  /** No pod was deleted in a set that Kubernetes had reported updated. */
  predicate ReportedUntouched(specs: seq<SetSpec>, reports: seq<nat>, w: World, v: World) {
    && |reports| == |specs| && Shaped(specs, w) && Shaped(specs, v)
    && forall k | 0 <= k < |specs| && reports[k] == specs[k].replicas :: v.deletions[k] == w.deletions[k]
  }

  /** The sets before k are complete and those from k on are as their reports say. */
  predicate TurnReached(specs: seq<SetSpec>, reports: seq<nat>, w: World, k: nat, failures: nat)
    requires Shaped(specs, w) && |reports| == |specs|
  {
    && (forall j | 0 <= j < k && j < |specs| :: Complete(specs[j], w.pods[j], w.deletions[j], failures))
    && (forall j | k <= j < |specs| ::
          Pending(specs[j], reports[j], w.saved[j], w.pods[j], w.deletions[j], failures))
  }

  lemma RecoveryKeepsOnePending(spec: SetSpec, report: nat, saved: Option<Entry>, pods: seq<Pod>, after: seq<Pod>,
                                deletions: nat, failures: nat)
    requires |pods| == spec.replicas && SetRecovers(pods, after)
    ensures Pending(spec, report, saved, pods, deletions, failures) ==>
            Pending(spec, report, saved, after, deletions, failures)
    ensures Complete(spec, pods, deletions, failures) ==> Complete(spec, after, deletions, failures)
  {
    RecoveryKeepsSetInv(spec, saved, pods, after, deletions, failures);
  }

  lemma OneMoreFailure(spec: SetSpec, report: nat, saved: Option<Entry>, pods: seq<Pod>, deletions: nat, failures: nat)
    requires |pods| == spec.replicas
    requires || Complete(spec, pods, deletions, failures)
             || Pending(spec, report, saved, pods, deletions, failures)
    ensures SetInv(spec, saved, pods, deletions, failures + 1)
  {
  }

  /** While the operator works on set k, the other sets stay as they are, up to recovery. */
  lemma NextTurn(specs: seq<SetSpec>, reports: seq<nat>, w: World, v: World, k: nat, failures: nat)
    requires Shaped(specs, w) && Shaped(specs, v) && |reports| == |specs| && k < |specs| && OnlySet(w, v, k)
    requires TurnReached(specs, reports, w, k, failures)
    ensures Complete(specs[k], v.pods[k], v.deletions[k], failures) ==> TurnReached(specs, reports, v, k + 1, failures)
    ensures forall j | 0 <= j < |specs| && j != k ::
              SetInv(specs[j], v.saved[j], v.pods[j], v.deletions[j], failures + 1)
  {
    forall j | 0 <= j < |specs| && j != k
      ensures j < k ==> Complete(specs[j], v.pods[j], v.deletions[j], failures)
      ensures k < j ==> Pending(specs[j], reports[j], v.saved[j], v.pods[j], v.deletions[j], failures)
      ensures SetInv(specs[j], v.saved[j], v.pods[j], v.deletions[j], failures + 1)
    {
      RecoveryKeepsOnePending(specs[j], reports[j], w.saved[j], w.pods[j], v.pods[j], w.deletions[j], failures);
      OneMoreFailure(specs[j], reports[j], v.saved[j], v.pods[j], v.deletions[j], failures);
    }
  }

  // ----- Replies -----

  /** The next n replies are good. */
  predicate GoodFor(script: seq<Reply>, n: nat) {
    n <= |script| && forall i | 0 <= i < n :: script[i].io.Ok?
  }

  /** One of the next n replies is not good. */
  predicate FailsWithin(script: seq<Reply>, n: nat) {
    exists i | 0 <= i < n && i < |script| :: !script[i].io.Ok?
  }

  /** The first n replies were good and are used up, or all of them if there are fewer. */
  predicate Consumed(start: seq<Reply>, now: seq<Reply>, n: nat) {
    if n <= |start| then GoodFor(start, n) && now == start[n..] else GoodFor(start, |start|) && now == []
  }

  lemma ConsumedNext(start: seq<Reply>, now: seq<Reply>, n: nat)
    requires Consumed(start, now, n)
    ensures now == [] ==> Consumed(start, [], n + 1)
    ensures now != [] && now[0].io.Ok? ==> Consumed(start, now[1..], n + 1)
    ensures now != [] && !now[0].io.Ok? ==> n < |start| && !start[n].io.Ok?
  {
  }

  lemma ConsumedAll(start: seq<Reply>, now: seq<Reply>, n: nat)
    requires Consumed(start, now, n)
    ensures !FailsWithin(start, n)
    ensures n <= |start| ==> GoodFor(start, n) && now == start[n..]
  {
  }

  /** A failure among the first replies and the next one, but not among the first, is the next one. */
  lemma FailsNext(start: seq<Reply>, now: seq<Reply>, n: nat)
    requires !FailsWithin(start, n) && FailsWithin(start, n + 1) && (n <= |start| ==> now == start[n..])
    ensures FailsWithin(now, 1)
  {
    assert !start[n].io.Ok? && now[0] == start[n];
  }

  /** Nothing was changed but the status, and that only when every set is complete. */
  predicate OnlyStatus(specs: seq<SetSpec>, w: World, v: World, failures: nat) {
    && v == w.(pods := v.pods, phase := v.phase) && Recovers(w.pods, v.pods)
    && (v.phase == w.phase || (Shaped(specs, v) && AllComplete(specs, v, failures)))
  }

  /** The first request fails and the one after it, the deferred enabling of allocation, crashes. */
  predicate CrashesAfterError(script: seq<Reply>) {
    |script| >= 2 && script[0].io.Err? && script[1].io.Crash?
  }

  /** What happens after the sets were read, in terms of the world before. */
  lemma AfterReading(specs: seq<SetSpec>, reports: seq<nat>, w: World, u: World, v: World, failures: nat)
    requires OnlyRecovers(w, u)
    ensures Calm(u, v) ==> Calm(w, v)
    ensures OnlyStatus(specs, u, v, failures) ==> OnlyStatus(specs, w, v, failures)
    ensures Shaped(specs, w) && ReportedUntouched(specs, reports, u, v) && CountedFresh(specs, reports, w) ==>
              FreshUntouched(specs, w, v)
  {
    if Recovers(u.pods, v.pods) {
      RecoversTransitively(w.pods, u.pods, v.pods);
    }
  }

  /** Pods of a set that were all recreated are not deleted. */
  predicate FreshUntouched(specs: seq<SetSpec>, w: World, v: World)
    requires Shaped(specs, w)
  {
    Shaped(specs, v) && forall k | 0 <= k < |specs| && AllFresh(w.pods[k]) :: v.deletions[k] == w.deletions[k]
  }

  // ----- An attempt that crashes at its first deletion -----

  /** The next n replies are good, and the pods stay as they are. */
  predicate Quiet(script: seq<Reply>, n: nat, pods: seq<seq<Pod>>) {
    n <= |script| && forall i | 0 <= i < n :: script[i] == Reply(Ok, pods)
  }

  /** After n such replies the operator crashes at a request that takes effect. */
  predicate CrashAfter(script: seq<Reply>, n: nat, pods: seq<seq<Pod>>) {
    Quiet(script, n, pods) && n < |script| && script[n] == Reply(Crash(true), pods)
  }

  lemma QuietSplits(script: seq<Reply>, m: nat, n: nat, pods: seq<seq<Pod>>)
    requires Quiet(script, m + n, pods)
    ensures Quiet(script, m, pods) && Quiet(script[m..], n, pods) && script[m..][n..] == script[m + n..]
  {
  }

  /** Pod i of set k was deleted. */
  function Struck(w: World, k: nat, i: nat): World
    requires k < |w.pods| == |w.deletions| && i < |w.pods[k]|
  {
    w.(pods := w.pods[k := w.pods[k][i := Missing]], deletions := w.deletions[k := w.deletions[k] + 1])
  }

  /** An entry of this generation with an empty list, or none. */
  predicate Blank(saved: Option<Entry>, generation: int) {
    saved.None? || saved.value == Entry(generation, [])
  }

  /** The requests it takes to have an entry. */
  function EntryRequests(saved: Option<Entry>): nat {
    if saved.None? then 1 else 0
  }

  /** Set k is the first that is not reported updated, and the lists of the sets before it are cleared. */
  predicate FirstLagging(specs: seq<SetSpec>, reports: seq<nat>, saved: seq<Option<Entry>>, k: nat) {
    && k < |specs| == |reports| == |saved|
    && (forall j | 0 <= j < k ::
          reports[j] == specs[j].replicas && saved[j].Some? && saved[j].value.updated == [])
    && reports[k] != specs[k].replicas
  }

  /** The highest pod of set k was deleted, with an entry for the set in the CR. */
  function StruckAt(specs: seq<SetSpec>, w: World, k: nat): World
    requires Shaped(specs, w) && k < |specs| && specs[k].replicas > 0
  {
    Struck(w.(saved := w.saved[k := Some(Entry(specs[k].generation, []))]), k, specs[k].replicas - 1)
  }

  /** Nothing is recorded of set k, and on these replies its restart crashes at the first deletion. */
  predicate CrashesNext(spec: SetSpec, w: World, script: seq<Reply>, k: nat)
    requires k < |w.pods| == |w.saved| && |w.pods[k]| == spec.replicas
  {
    && spec.replicas > 0 && w.pods[k][spec.replicas - 1].Old? && Blank(w.saved[k], spec.generation)
    && CrashAfter(script, EntryRequests(w.saved[k]), w.pods)
  }

  /** On these replies the loop over the sets comes to set k and crashes at its first deletion. */
  predicate CrashesAtSet(specs: seq<SetSpec>, reports: seq<nat>, w: World, script: seq<Reply>, k: nat)
    requires Shaped(specs, w)
  {
    FirstLagging(specs, reports, w.saved, k) && CrashesNext(specs[k], w, script, k)
  }

  function Counts(pods: seq<seq<Pod>>): seq<nat> {
    seq(|pods|, k requires 0 <= k < |pods| => FreshCount(pods[k]))
  }

  /** Reading has changed nothing, used up a reply for each report, and counted the pods as they are. */
  predicate ReadQuietly(start: World, w: World, replies: seq<Reply>, now: seq<Reply>, reports: seq<nat>) {
    && w == start && |reports| <= |start.pods| && |reports| <= |replies| && now == replies[|reports|..]
    && reports == Counts(start.pods)[..|reports|]
  }

  lemma ReadQuietlyNext(start: World, w: World, replies: seq<Reply>, now: seq<Reply>, reports: seq<nat>, n: nat)
    requires ReadQuietly(start, w, replies, now, reports) && Quiet(replies, n, start.pods)
    requires |reports| < n && |reports| < |start.pods|
    ensures now != [] && now[0] == Reply(Ok, start.pods)
    ensures ReadQuietly(start, start, replies, now[1..], reports + [FreshCount(start.pods[|reports|])])
  {
    var k := |reports|;
    assert now[0] == replies[k] && now[1..] == replies[k + 1..];
    assert Counts(start.pods)[..k + 1] == Counts(start.pods)[..k] + [Counts(start.pods)[k]];
  }

  lemma ReadAllQuietly(start: World, w: World, replies: seq<Reply>, now: seq<Reply>, reports: seq<nat>)
    requires ReadQuietly(start, w, replies, now, reports) && |reports| == |start.pods|
    ensures w == start && now == replies[|reports|..] && reports == Counts(start.pods)
  {
  }

  /** Some set is not reported updated. */
  predicate Lags(specs: seq<SetSpec>, reports: seq<nat>)
    requires |reports| == |specs|
  {
    exists k | 0 <= k < |specs| :: reports[k] != specs[k].replicas
  }

  predicate AllOnDelete(specs: seq<SetSpec>) {
    forall k | 0 <= k < |specs| :: specs[k].onDelete
  }

  /** The requests that prepare an update: none when one is resumed, otherwise two for allocation, the
      flush and the status. */
  function PrepareRequests(phase: Phase): nat {
    if phase == Running then 0 else 4
  }

  /** With the health check before them. */
  function StartRequests(phase: Phase): nat {
    if phase == Running then 0 else 5
  }

  /** The world when the update of the sets begins, the pods having become `pods`. */
  function Begun(w: World, pods: seq<seq<Pod>>): World {
    w.(pods := pods, phase := Running, allocation := w.phase == Running && w.allocation)
  }

  /** On these replies the attempt comes to set k and crashes at its first deletion. */
  predicate CrashesAt(specs: seq<SetSpec>, w: World, replies: seq<Reply>, k: nat)
    requires Shaped(specs, w)
  {
    && replies != [] && AllOnDelete(specs)
    && var pods := replies[0].pods;
       && Recovers(w.pods, pods) && FirstLagging(specs, Counts(pods), w.saved, k)
       && var lead := 1 + |specs| + StartRequests(w.phase);
          Quiet(replies, lead, pods) && CrashesNext(specs[k], Begun(w, pods), replies[lead..], k)
  }

  /** The same, after connecting and reading the sets. */
  predicate CrashGoesOn(specs: seq<SetSpec>, w: World, replies: seq<Reply>, k: nat)
    requires Shaped(specs, w)
  {
    && replies != [] && Recovers(w.pods, replies[0].pods) && Quiet(replies, 1 + |specs|, replies[0].pods)
    && var v, rest := w.(pods := replies[0].pods), replies[1 + |specs|..];
       && Shaped(specs, v) && Begun(v, v.pods) == Begun(w, v.pods) && Quiet(rest, StartRequests(v.phase), v.pods)
       && CrashesAtSet(specs, Counts(v.pods), Begun(v, v.pods), rest[StartRequests(v.phase)..], k)
  }

  lemma ReachesStart(specs: seq<SetSpec>, w: World, replies: seq<Reply>, k: nat)
    requires Shaped(specs, w) && CrashesAt(specs, w, replies, k)
    ensures CrashGoesOn(specs, w, replies, k)
  {
    QuietSplits(replies, 1 + |specs|, StartRequests(w.phase), replies[0].pods);
  }

  // ----- The operator -----

  class Operator {
    const specs: seq<SetSpec>
    var world: World
    var statuses: seq<Option<Entry>>   // the in-memory copy of the CR's progress
    var phase: Phase                   // the in-memory copy of the CR's status
    var script: seq<Reply>
    var asked: seq<bool>               // allocation requests of this attempt; true enables
    var faults: nat                    // replies of this attempt that were not good

    constructor (specs: seq<SetSpec>, world: World)
      requires Shaped(specs, world)
      ensures this.specs == specs && this.world == world && Valid()
    {
      this.specs, this.world, this.statuses, this.phase := specs, world, world.saved, world.phase;
      this.script, this.asked, this.faults := [], [], 0;
    }

    predicate Valid()
      reads this
    {
      Shaped(specs, world) && |statuses| == |specs|
    }

    /** One request: the cluster recovers on its own meanwhile, and the reply is the next of the
        script. Once the script is used up nothing goes wrong any more: requests succeed and pods
        come back. */
    method Ask() returns (io: Io)
      requires Valid()
      modifies `world, `script, `faults
      ensures Valid() && OnlyRecovers(old(world), world)
      ensures old(script) == [] ==> io.Ok? && script == []
      ensures old(script) == [] ==> forall k, i | 0 <= k < |specs| && 0 <= i < specs[k].replicas ::
              !Down(world.pods[k][i])
      ensures old(script) != [] ==> io == old(script)[0].io && script == old(script)[1..]
      ensures old(script) != [] ==>
              world.pods ==
                if Recovers(old(world).pods, old(script)[0].pods) then old(script)[0].pods else old(world).pods
      ensures faults == old(faults) + (if io.Ok? then 0 else 1)
    {
      if script == [] {
        world := world.(pods := Heal(world.pods));
        return Ok;
      }
      io := script[0].io;
      if Recovers(world.pods, script[0].pods) {
        world := world.(pods := script[0].pods);
      }
      script := script[1..];
      faults := faults + (if io.Ok? then 0 else 1);
    }

    /** Writes the in-memory progress to the CR. */
    method UpdateStatuses() returns (io: Io)
      requires Valid()
      modifies `world, `script, `faults
      ensures Valid() && Recovers(old(world).pods, world.pods)
      ensures world == old(world).(pods := world.pods, saved := world.saved)
      ensures world.saved == (if io.Ok? || io.applied then statuses else old(world).saved)
      ensures old(script) == [] ==> io.Ok? && script == []
      ensures io.Ok? ==> faults == old(faults)
      ensures Quiet(old(script), 1, old(world).pods) ==>
              io.Ok? && script == old(script)[1..] && world == old(world).(saved := statuses)
    {
      io := Ask();
      if io.Ok? || io.applied {
        world := world.(saved := statuses);
      }
    }

    /** Deletes a pod that exists; a pod still missing makes the lookup fail. */
    method DeletePod(k: nat, i: nat) returns (io: Io)
      requires Valid() && k < |specs| && i < specs[k].replicas
      modifies `world, `script, `faults
      ensures Valid() && OnlySet(old(world), world, k) && world.saved == old(world).saved
      ensures forall j | 0 <= j < specs[k].replicas && j != i :: PodRecovers(old(world).pods[k][j], world.pods[k][j])
      ensures world.deletions[k] == old(world).deletions[k] + (if io.Ok? || io.applied then 1 else 0)
      ensures if io.Ok? || io.applied then world.pods[k][i].Missing?
              else PodRecovers(old(world).pods[k][i], world.pods[k][i])
      ensures old(script) != [] && old(script)[0].pods == old(world).pods && old(world).pods[k][i].Missing? ==>
              !io.Ok? && world == old(world)
      ensures old(script) == [] ==> io.Ok? && script == []
      ensures io.Ok? ==> faults == old(faults)
      ensures CrashAfter(old(script), 0, old(world).pods) && !old(world).pods[k][i].Missing? ==>
              io == Crash(true) && world == Struck(old(world), k, i)
    {
      io := Ask();
      if world.pods[k][i].Missing? {
        io := if io.Crash? then Crash(false) else Err(false);
      }
      if io.Ok? || io.applied {
        world := world.(pods := world.pods[k := world.pods[k][i := Missing]],
                        deletions := world.deletions[k := world.deletions[k] + 1]);
      }
    }

    /** Succeeds only once the pod is ready. */
    method WaitReady(k: nat, i: nat) returns (io: Io)
      requires Valid() && k < |specs| && i < specs[k].replicas && !world.pods[k][i].Old?
      modifies `world, `script, `faults
      ensures Valid() && OnlyRecovers(old(world), world)
      ensures io.Ok? ==> world.pods[k][i] == Fresh(true)
      ensures old(script) == [] ==> io.Ok? && script == []
      ensures io.Ok? ==> faults == old(faults)
    {
      io := Ask();
      if io.Ok? && world.pods[k][i] != Fresh(true) {
        io := Err(false);
      }
    }

    /** The in-memory entry of set k, created and persisted when the CR has none. */
    method FindStatus(k: nat) returns (io: Io)
      requires Valid() && k < |specs| && statuses == world.saved
      modifies `world, `script, `faults, `statuses
      ensures Valid() && OnlySet(old(world), world, k) && SetRecovers(old(world).pods[k], world.pods[k])
      ensures world.deletions == old(world).deletions
      ensures world.saved[k] == old(world).saved[k]
           || (old(world).saved[k].None? && world.saved[k] == Some(Entry(specs[k].generation, [])))
      ensures io.Ok? ==> statuses == world.saved && statuses[k].Some?
      ensures old(script) == [] ==> io.Ok? && script == []
      ensures io.Ok? ==> faults == old(faults)
      ensures old(statuses)[k].Some? ==> io.Ok? && world == old(world) && script == old(script)
      ensures old(statuses)[k].None? && Quiet(old(script), 1, old(world).pods) ==>
                && io.Ok? && script == old(script)[1..]
                && world == old(world).(saved := world.saved[k := Some(Entry(specs[k].generation, []))])
    {
      io := Ok;
      if statuses[k].None? {
        statuses := statuses[k := Some(Entry(specs[k].generation, []))];
        io := UpdateStatuses();
      }
    }

    /** The list of pods done in this generation; an entry of another generation is reset first. */
    method GetUpdatedReplicas(k: nat) returns (io: Io)
      requires Valid() && k < |specs| && statuses == world.saved && statuses[k].Some?
      modifies `world, `script, `faults, `statuses
      ensures Valid() && OnlySet(old(world), world, k) && SetRecovers(old(world).pods[k], world.pods[k])
      ensures world.deletions == old(world).deletions
      ensures world.saved[k] == old(world).saved[k]
           || (old(world).saved[k].value.generation != specs[k].generation
               && world.saved[k] == Some(Entry(specs[k].generation, [])))
      ensures io.Ok? ==>
                && statuses == world.saved
                && world.saved[k].Some? && world.saved[k].value.generation == specs[k].generation
      ensures old(script) == [] ==> io.Ok? && script == []
      ensures io.Ok? ==> faults == old(faults)
      ensures old(world).saved[k].value.generation == specs[k].generation ==>
              io.Ok? && world == old(world) && script == old(script)
    {
      io := Ok;
      if statuses[k].value.generation != specs[k].generation {
        statuses := statuses[k := Some(Entry(specs[k].generation, []))];
        io := UpdateStatuses();
      }
    }

    /** Deletes one pod, waits for its replacement and records it. */
    method RestartReplica(k: nat, i: nat, ghost failures: nat) returns (io: Io)
      requires Valid() && k < |specs| && i < specs[k].replicas && statuses == world.saved
      requires InProgress(specs[k], world.saved[k], world.pods[k], world.deletions[k], failures)
      requires i == specs[k].replicas - 1 - |world.saved[k].value.updated|
      modifies `world, `script, `faults, `statuses
      ensures Valid() && OnlySet(old(world), world, k)
      ensures io.Ok? ==>
                && statuses == world.saved
                && InProgress(specs[k], world.saved[k], world.pods[k], world.deletions[k], failures)
                && world.saved[k].value.updated == old(world).saved[k].value.updated + [i]
      ensures InProgress(specs[k], world.saved[k], world.pods[k], world.deletions[k], failures + 1)
      ensures old(script) == [] ==> io.Ok? && script == []
      ensures io.Ok? ==> faults == old(faults)
      ensures CrashAfter(old(script), 0, old(world).pods) && !old(world).pods[k][i].Missing? ==>
              io == Crash(true) && world == Struck(old(world), k, i)
    {
      io := DeletePod(k, i);
      ghost var deleted := world;
      DeletionKeepsProgress(specs[k], world.saved[k], old(world).pods[k], deleted.pods[k],
                            old(world).deletions[k], deleted.deletions[k], failures);
      if !io.Ok? { return; }
      io := WaitReady(k, i);
      ghost var ready := world;
      OnlySetTransitively(old(world), deleted, ready, k);
      RecoveryKeepsProgress(specs[k], ready.saved[k], deleted.pods[k], ready.pods[k], ready.deletions[k], failures + 1);
      if !io.Ok? { return; }
      io := RecordReplica(k, i, failures);
      OnlySetTransitively(old(world), ready, world, k);
    }

    /** Adds a ready pod to the list and persists it. */
    method RecordReplica(k: nat, i: nat, ghost failures: nat) returns (io: Io)
      requires Valid() && k < |specs| && i < specs[k].replicas && statuses == world.saved
      requires InProgress(specs[k], world.saved[k], world.pods[k], world.deletions[k], failures + 1)
      requires i == specs[k].replicas - 1 - |world.saved[k].value.updated| && world.pods[k][i] == Fresh(true)
      modifies `world, `script, `faults, `statuses
      ensures Valid() && OnlySet(old(world), world, k)
      ensures io.Ok? ==>
                && statuses == world.saved
                && InProgress(specs[k], world.saved[k], world.pods[k], world.deletions[k], failures)
                && world.saved[k].value.updated == old(world).saved[k].value.updated + [i]
      ensures InProgress(specs[k], world.saved[k], world.pods[k], world.deletions[k], failures + 1)
      ensures old(script) == [] ==> io.Ok? && script == []
      ensures io.Ok? ==> faults == old(faults)
    {
      var entry := statuses[k].value;
      statuses := statuses[k := Some(entry.(updated := entry.updated + [i]))];
      io := UpdateStatuses();
      RecoveryKeepsProgress(specs[k], Some(entry), old(world).pods[k], world.pods[k], world.deletions[k], failures + 1);
      RecordKeepsProgress(specs[k], entry, world.pods[k], world.deletions[k], failures, i);
    }

    /** Restarts the pods of set k that are not recorded yet, from the highest ordinal down. */
    method RestartPod(k: nat, ghost failures: nat) returns (io: Io)
      requires Valid() && k < |specs| && statuses == world.saved && statuses[k].Some?
      requires Working(specs[k], world.saved[k], world.pods[k], world.deletions[k], failures)
      modifies `world, `script, `faults, `statuses
      ensures Valid() && OnlySet(old(world), world, k)
      ensures io.Ok? ==>
                && statuses == world.saved && statuses[k].Some?
                && Complete(specs[k], world.pods[k], world.deletions[k], failures)
                && forall i | 0 <= i < specs[k].replicas :: world.pods[k][i] == Fresh(true)
      ensures SetInv(specs[k], world.saved[k], world.pods[k], world.deletions[k], failures + 1)
      ensures old(script) == [] ==> io.Ok? && script == []
      ensures io.Ok? ==> faults == old(faults)
      ensures CrashesNext(specs[k], old(world), old(script), k) && old(world).saved[k].Some? ==>
              io == Crash(true) && world == Struck(old(world), k, specs[k].replicas - 1)
    {
      io := GetUpdatedReplicas(k);
      if !io.Ok? { return; }
      var replica := specs[k].replicas - 1;
      while replica >= 0
        invariant old(script) == [] ==> script == []
        invariant faults == old(faults)
        invariant Valid() && OnlySet(old(world), world, k) && statuses == world.saved
        invariant InProgress(specs[k], world.saved[k], world.pods[k], world.deletions[k], failures)
        invariant specs[k].replicas - |world.saved[k].value.updated| - 1 <= replica < specs[k].replicas
        invariant io.Ok?
        invariant CrashesNext(specs[k], old(world), old(script), k) ==>
                  replica == specs[k].replicas - 1 && world == old(world) && script == old(script)
      {
        if replica !in statuses[k].value.updated {
          ghost var before := world;
          CountdownMember(specs[k].replicas, |world.saved[k].value.updated|, replica);
          io := RestartReplica(k, replica, failures);
          OnlySetTransitively(old(world), before, world, k);
          if !io.Ok? { return; }
        }
        replica := replica - 1;
      }
    }

    /** Every set in turn: restarted unless Kubernetes reported it updated, then its list is cleared. A
        failure comes at set `at`; a crash may come at any request, so what is said of the pods then
        holds at every moment of that set's restart. */
    method RestartPods(reports: seq<nat>, ghost failures: nat) returns (io: Io, ghost at: nat)
      requires Valid() && statuses == world.saved && |reports| == |specs|
      requires AllPending(specs, reports, world, failures) && OnTurn(specs, reports, world.pods, 0)
      modifies `world, `script, `faults, `statuses
      ensures Valid() && world.phase == old(world).phase && world.allocation == old(world).allocation
      ensures io.Ok? ==> statuses == world.saved && AllComplete(specs, world, failures)
      ensures WorldInv(specs, world, failures + 1)
      ensures ReportedUntouched(specs, reports, old(world), world)
      ensures old(script) == [] ==> io.Ok? && script == []
      ensures io.Ok? ==> faults == old(faults)
      ensures !io.Ok? ==> at < |specs|
      ensures !io.Ok? && reports[at] != specs[at].replicas ==>
              (DownElsewhere(world.pods, at) <==> StartingBefore(world.pods, at))
      ensures forall k | CrashesAtSet(specs, reports, old(world), old(script), k) ::
                io == Crash(true) && world == StruckAt(specs, old(world), k)
    {
      io, at := Ok, 0;
      var k := 0;
      while k < |specs|
        invariant old(script) == [] ==> script == []
        invariant faults == old(faults)
        invariant Valid() && 0 <= k <= |specs| && statuses == world.saved && io.Ok?
        invariant world.phase == old(world).phase && world.allocation == old(world).allocation
        invariant TurnReached(specs, reports, world, k, failures)
        invariant ReportedUntouched(specs, reports, old(world), world)
        invariant OnTurn(specs, reports, world.pods, k)
        invariant forall j | CrashesAtSet(specs, reports, old(world), old(script), j) ::
                    k <= j && world == old(world) && script == old(script)
      {
        ghost var before := world;
        at := k;
        io := RestartSet(k, reports[k], failures);
        NextTurn(specs, reports, before, world, k, failures);
        TurnKeepsOrder(specs, reports, before.pods, world.pods, k);
        if !io.Ok? {
          if reports[k] != specs[k].replicas {
            DownElsewhereExactly(world.pods, k);
          }
          return;
        }
        k := k + 1;
      }
      OnTurnIsInTurn(specs, reports, world.pods, |specs|);
    }

    /** One turn of the loop over the sets. */
    method RestartSet(k: nat, report: nat, ghost failures: nat) returns (io: Io)
      requires Valid() && k < |specs| && statuses == world.saved
      requires Pending(specs[k], report, world.saved[k], world.pods[k], world.deletions[k], failures)
      modifies `world, `script, `faults, `statuses
      ensures Valid() && OnlySet(old(world), world, k)
      ensures io.Ok? ==> statuses == world.saved && Complete(specs[k], world.pods[k], world.deletions[k], failures)
      ensures io.Ok? ==> statuses[k].Some? && statuses[k].value.updated == []
      ensures SetInv(specs[k], world.saved[k], world.pods[k], world.deletions[k], failures + 1)
      ensures report == specs[k].replicas ==>
              world.deletions[k] == old(world).deletions[k] && SetRecovers(old(world).pods[k], world.pods[k])
      ensures old(script) == [] ==> io.Ok? && script == []
      ensures io.Ok? ==> faults == old(faults)
      ensures report == specs[k].replicas && old(world).saved[k].Some? && old(world).saved[k].value.updated == [] ==>
              io.Ok? && world == old(world) && script == old(script)
      ensures report != specs[k].replicas && CrashesNext(specs[k], old(world), old(script), k) ==>
              io == Crash(true) && world == StruckAt(specs, old(world), k)
    {
      io := FindStatus(k);
      RecoveryKeepsSetInv(specs[k], old(world).saved[k], old(world).pods[k], world.pods[k], world.deletions[k],
                          failures);
      if !io.Ok? { return; }
      if report != specs[k].replicas {
        ghost var found := world;
        io := RestartPod(k, failures);
        OnlySetTransitively(old(world), found, world, k);
        if !io.Ok? { return; }
      }
      ghost var restarted := world;
      io := ClearList(k);
      RecoveryKeepsSetInv(specs[k], restarted.saved[k], restarted.pods[k], world.pods[k], world.deletions[k],
                          failures);
      OnlySetTransitively(old(world), restarted, world, k);
      if report == specs[k].replicas {
        SetRecoversTransitively(old(world).pods[k], restarted.pods[k], world.pods[k]);
      }
    }

    /** Empties the list of set k and persists that, unless it is empty already. */
    method ClearList(k: nat) returns (io: Io)
      requires Valid() && k < |specs| && statuses == world.saved && statuses[k].Some?
      modifies `world, `script, `faults, `statuses
      ensures Valid() && OnlySet(old(world), world, k) && SetRecovers(old(world).pods[k], world.pods[k])
      ensures world.deletions == old(world).deletions
      ensures io.Ok? ==> statuses == world.saved && statuses[k].Some? && statuses[k].value.updated == []
      ensures old(script) == [] ==> io.Ok? && script == []
      ensures io.Ok? ==> faults == old(faults)
      ensures old(world).saved[k].value.updated == [] ==> io.Ok? && world == old(world) && script == old(script)
    {
      io := Ok;
      if statuses[k].value.updated != [] {
        statuses := statuses[k := Some(statuses[k].value.(updated := []))];
        io := UpdateStatuses();
      }
    }

    /** Reads the next set. */
    method GetStatefulSet(reports: seq<nat>, ghost start: World, ghost failures: nat) returns (io: Io, report: nat)
      requires Valid() && |reports| < |specs| && Shaped(specs, start) && OnlyRecovers(start, world)
      requires ReadSoFar(specs, reports, start, world, failures)
      modifies `world, `script, `faults
      ensures Valid() && OnlyRecovers(start, world) && OnlyRecovers(old(world), world)
      ensures ReadSoFar(specs, if io.Ok? then reports + [report] else reports, start, world, failures)
      ensures io.Ok? ==> report == FreshCount(world.pods[|reports|])
      ensures old(script) == [] ==> io.Ok? && script == []
      ensures old(script) != [] ==> io == old(script)[0].io && script == old(script)[1..]
      ensures old(script) != [] && old(script)[0].pods == old(world).pods ==> world == old(world)
      ensures io.Ok? ==> faults == old(faults)
    {
      io := Ask();
      report := FreshCount(world.pods[|reports|]);
      RecoveryKeepsReading(specs, reports, start, old(world), world, failures);
      RecoversTransitively(start.pods, old(world).pods, world.pods);
      ReadOneMore(specs, reports, start, world, failures);
    }

    /** Reads the sets one by one; Kubernetes counts the recreated pods of each. */
    method GetStatefulSets(ghost failures: nat) returns (io: Io, reports: seq<nat>)
      requires Valid() && WorldInv(specs, world, failures)
      modifies `world, `script, `faults
      ensures Valid() && OnlyRecovers(old(world), world) && WorldInv(specs, world, failures)
      ensures io.Ok? ==> |reports| == |specs| && AllPending(specs, reports, world, failures)
      ensures io.Ok? ==> OnTurn(specs, reports, world.pods, 0) && CountedFresh(specs, reports, old(world))
      ensures old(script) == [] ==> io.Ok? && script == []
      ensures io.Ok? ==> faults == old(faults)
      ensures Quiet(old(script), |specs|, old(world).pods) ==>
                && io.Ok? && world == old(world) && script == old(script)[|specs|..]
                && reports == Counts(world.pods)
      ensures io.Ok? && |specs| <= |old(script)| ==>
              GoodFor(old(script), |specs|) && script == old(script)[|specs|..]
      ensures FailsWithin(old(script), |specs|) ==> !io.Ok?
    {
      io, reports := Ok, [];
      while |reports| < |specs|
        invariant old(script) == [] ==> script == []
        invariant faults == old(faults)
        invariant Valid() && OnlyRecovers(old(world), world) && io.Ok?
        invariant ReadSoFar(specs, reports, old(world), world, failures)
        invariant Quiet(old(script), |specs|, old(world).pods) ==>
                  ReadQuietly(old(world), world, old(script), script, reports)
        invariant Consumed(old(script), script, |reports|)
        decreases |specs| - |reports|
      {
        ConsumedNext(old(script), script, |reports|);
        if Quiet(old(script), |specs|, old(world).pods) {
          ReadQuietlyNext(old(world), world, old(script), script, reports, |specs|);
        }
        var report;
        io, report := GetStatefulSet(reports, old(world), failures);
        if !io.Ok? { return; }
        reports := reports + [report];
      }
      ReadAll(specs, reports, old(world), world, failures);
      ConsumedAll(old(script), script, |specs|);
      if Quiet(old(script), |specs|, old(world).pods) {
        ReadAllQuietly(old(world), world, old(script), script, reports);
      }
    }

    method ChangeAllocation(enable: bool) returns (io: Io)
      requires Valid()
      modifies `world, `script, `faults, `asked
      ensures Valid() && Recovers(old(world).pods, world.pods)
      ensures world == old(world).(pods := world.pods, allocation := world.allocation)
      ensures asked == old(asked) + [enable]
      ensures io.Ok? ==> world.allocation == enable
      ensures old(script) == [] ==> io.Ok? && script == []
      ensures io.Ok? ==> faults == old(faults)
      ensures Quiet(old(script), 2, old(world).pods) ==>
              io.Ok? && script == old(script)[2..] && world == old(world).(allocation := enable)
      ensures io.Ok? && 2 <= |old(script)| ==> script == old(script)[2..]
      ensures FailsWithin(old(script), 2) ==> !io.Ok?
      ensures old(script) != [] ==>
              var first := old(script)[0].io;
              && (!first.Ok? ==> io == first && script == old(script)[1..])
              && world.allocation == (if first.Ok? || first.applied then enable else old(world).allocation)
    {
      asked := asked + [enable];
      io := Ask();
      if io.Ok? || io.applied {
        world := world.(allocation := enable);
      }
      if !io.Ok? { return; }
      ghost var changed := world;
      io := Ask();
      RecoversTransitively(old(world).pods, changed.pods, world.pods);
    }

    method EnableAllocationIfNecessary() returns (io: Io)
      requires Valid()
      modifies `world, `script, `faults, `asked
      ensures Valid() && Recovers(old(world).pods, world.pods)
      ensures world == old(world).(pods := world.pods, allocation := world.allocation)
      ensures asked == old(asked) || asked == old(asked) + [true]
      ensures old(world).allocation ==> asked == old(asked) && world.allocation
      ensures io.Ok? ==> world.allocation
      ensures old(script) == [] ==> io.Ok? && script == []
      ensures io.Ok? ==> faults == old(faults)
    {
      io := Ask();
      if !io.Ok? || world.allocation { return; }
      ghost var checked := world;
      io := ChangeAllocation(true);
      RecoversTransitively(old(world).pods, checked.pods, world.pods);
    }

    /** Sets the status in memory whether or not the CR could be written. */
    method UpdatePhase(p: Phase) returns (io: Io)
      requires Valid()
      modifies `world, `script, `faults, `phase
      ensures Valid() && Recovers(old(world).pods, world.pods) && phase == p
      ensures world == old(world).(pods := world.pods, phase := world.phase)
      ensures world.phase == (if io.Ok? || io.applied then p else old(world).phase)
      ensures old(script) == [] ==> io.Ok? && script == []
      ensures io.Ok? ==> faults == old(faults)
      ensures Quiet(old(script), 1, old(world).pods) ==>
              io.Ok? && script == old(script)[1..] && world == old(world).(phase := p)
      ensures old(script) != [] ==> io == old(script)[0].io
    {
      io := Ask();
      phase := p;
      if io.Ok? || io.applied {
        world := world.(phase := p);
      }
    }

    /** Disable allocation, flush and mark the update running, unless a run is being resumed. */
    method Prepare() returns (io: Io)
      requires Valid() && phase == world.phase
      modifies `world, `script, `faults, `phase, `asked
      ensures Valid() && Calm(old(world), world)
      ensures asked == old(asked) + (if old(phase) == Running then [] else [false])
      ensures io.Ok? ==> world.phase == Running && (old(phase) != Running ==> !world.allocation)
      ensures old(script) == [] ==> io.Ok? && script == []
      ensures io.Ok? ==> faults == old(faults)
      ensures Quiet(old(script), PrepareRequests(old(phase)), old(world).pods) ==>
                && io.Ok? && script == old(script)[PrepareRequests(old(phase))..]
                && world == Begun(old(world), old(world).pods)
      ensures world.phase in {old(world).phase, Running}
      ensures old(phase) != Running && FailsWithin(old(script), 3) ==> !io.Ok? && world.phase == old(world).phase
      ensures old(phase) != Running && FailsWithin(old(script), 1) ==>
              io == old(script)[0].io && script == old(script)[1..]
    {
      io := Ok;
      if phase != Running {
        io := ChangeAllocation(false);
        if !io.Ok? { return; }
        ghost var disabled := world;
        io := Ask();
        if !io.Ok? { CalmTransitively(old(world), disabled, world); return; }
        ghost var flushed := world;
        io := UpdatePhase(Running);
        CalmTransitively(disabled, flushed, world);
        CalmTransitively(old(world), disabled, world);
      }
    }

    /** After the restarts: enable allocation, wait for a healthy cluster and mark the update done. */
    method Conclude() returns (io: Io)
      requires Valid()
      modifies `world, `script, `faults, `phase, `asked
      ensures Valid() && Calm(old(world), world)
      ensures asked == old(asked) + [true]
      ensures io.Ok? ==> world.allocation && world.phase == Done
      ensures old(script) == [] ==> io.Ok? && script == []
      ensures io.Ok? ==> faults == old(faults)
      ensures FailsWithin(old(script), 3) ==> !io.Ok? && world.phase == old(world).phase
    {
      io := ChangeAllocation(true);
      if !io.Ok? { return; }
      ghost var enabled := world;
      io := Ask();
      if !io.Ok? { CalmTransitively(old(world), enabled, world); return; }
      ghost var healthy := world;
      io := UpdatePhase(Done);
      CalmTransitively(enabled, healthy, world);
      CalmTransitively(old(world), enabled, world);
    }

    /** The update, with the deferred enabling of allocation on every path that did not enable it. */
    method RunRollingUpdate(reports: seq<nat>, ghost failures: nat) returns (outcome: Outcome)
      requires Valid() && statuses == world.saved && phase == world.phase && |reports| == |specs|
      requires WorldInv(specs, world, failures) && AllPending(specs, reports, world, failures)
      requires OnTurn(specs, reports, world.pods, 0)
      modifies `world, `script, `faults, `statuses, `phase, `asked
      ensures Valid() && WorldInv(specs, world, failures + 1)
      ensures outcome.Finished? ==> AllComplete(specs, world, failures) && world.allocation && world.phase == Done
      ensures world.phase in {old(world).phase, Running} || AllComplete(specs, world, failures)
      ensures !outcome.Crashed? ==> asked == old(asked) + (if old(phase) == Running then [] else [false]) + [true]
      ensures ReportedUntouched(specs, reports, old(world), world)
      ensures old(script) == [] ==> outcome.Finished? && script == []
      ensures outcome.Finished? ==> faults == old(faults)
      ensures old(phase) != Running && CrashesAfterError(old(script)) ==> outcome.Crashed?
      ensures Quiet(old(script), PrepareRequests(old(phase)), old(world).pods) ==>
              forall k | CrashesAtSet(specs, reports, Begun(old(world), old(world).pods),
                                      old(script)[PrepareRequests(old(phase))..], k) ::
                outcome.Crashed? && world == StruckAt(specs, Begun(old(world), old(world).pods), k)
    {
      var io := Prepare();
      RecoveryKeepsPending(specs, reports, old(world), world, failures);
      RecoveryKeepsOnTurn(specs, reports, old(world).pods, world.pods, 0);
      MoreFailures(specs, world, failures);
      if io.Ok? {
        ghost var at;
        io, at := RestartPods(reports, failures);
        if io.Ok? {
          ghost var restarted := world;
          io := Conclude();
          CalmKeepsComplete(specs, restarted, world, failures);
          return OutcomeOf(io);
        }
      }
      if !io.Crash? {
        ghost var stopped := world;
        var deferred := ChangeAllocation(true);
        RecoveryKeepsPending(specs, [], stopped, world, failures + 1);
        io := if deferred.Crash? then deferred else io;
      }
      outcome := OutcomeOf(io);
    }

    /** A set on another strategy than OnDelete switches the update off; a run in progress is
        continued; otherwise some set must lag behind and the cluster be healthy. */
    method NeedToPerform(reports: seq<nat>) returns (io: Io, perform: bool)
      requires Valid() && |reports| == |specs|
      modifies `world, `script, `faults
      ensures Valid() && OnlyRecovers(old(world), world)
      ensures old(script) == [] ==> io.Ok? && script == []
      ensures io.Ok? ==> faults == old(faults)
      ensures perform <==> io.Ok? && AllOnDelete(specs) && (phase == Running || Lags(specs, reports))
      ensures !AllOnDelete(specs) || phase == Running || !Lags(specs, reports) ==>
              io.Ok? && world == old(world) && script == old(script)
      ensures AllOnDelete(specs) && phase != Running && Lags(specs, reports) && old(script) != [] ==>
              io == old(script)[0].io && script == old(script)[1..]
      ensures phase != Running && AllOnDelete(specs) && Lags(specs, reports)
              && Quiet(old(script), 1, old(world).pods) ==>
                io.Ok? && world == old(world) && script == old(script)[1..]
    {
      io, perform := Ok, false;
      if exists k | 0 <= k < |specs| :: !specs[k].onDelete {
        return;
      }
      if phase != Running {
        if forall k | 0 <= k < |specs| :: reports[k] == specs[k].replicas {
          return;
        }
        io := Ask();
      }
      perform := io.Ok?;
    }

    /** Decides on the reports whether to update, and does it or only settles status and allocation. */
    method UpdateIfNeeded(reports: seq<nat>, ghost failures: nat) returns (outcome: Outcome)
      requires Valid() && statuses == world.saved && phase == world.phase && |reports| == |specs| && asked == []
      requires WorldInv(specs, world, failures) && AllPending(specs, reports, world, failures)
      requires OnTurn(specs, reports, world.pods, 0)
      modifies this
      ensures Valid() && WorldInv(specs, world, failures + (if outcome.Finished? then 0 else 1))
      ensures ReportedUntouched(specs, reports, old(world), world)
      ensures outcome.Finished? ==> world.allocation && world.phase == Done
      ensures outcome.Finished? && (forall k | 0 <= k < |specs| :: specs[k].onDelete) ==>
              AllComplete(specs, world, failures)
      ensures !outcome.Crashed? ==> asked == [] || asked[|asked| - 1]
      ensures old(script) == [] ==> outcome.Finished? && script == []
      ensures outcome.Finished? ==> faults == old(faults)
      ensures AllOnDelete(specs) ==>
              world.phase in {old(world).phase, Running} || AllComplete(specs, world, failures)
      ensures !AllOnDelete(specs) ==> Calm(old(world), world)
      ensures old(phase) != Running && AllOnDelete(specs) && FailsWithin(old(script), 1) ==>
              !outcome.Finished? && OnlyStatus(specs, old(world), world, failures) && asked == []
      ensures AllOnDelete(specs) && Quiet(old(script), StartRequests(old(phase)), old(world).pods) ==>
              forall k | CrashesAtSet(specs, reports, Begun(old(world), old(world).pods),
                                      old(script)[StartRequests(old(phase))..], k) ::
                outcome.Crashed? && world == StruckAt(specs, Begun(old(world), old(world).pods), k)
    {
      if phase != Running && Quiet(script, StartRequests(phase), world.pods) {
        QuietSplits(script, 1, 4, world.pods);
      }
      var io, perform := NeedToPerform(reports);
      RecoveryKeepsPending(specs, reports, old(world), world, failures);
      RecoveryKeepsOnTurn(specs, reports, old(world).pods, world.pods, 0);
      MoreFailures(specs, world, failures);
      if !io.Ok? { return OutcomeOf(io); }
      if perform {
        outcome := RunRollingUpdate(reports, failures);
        CompleteIsInv(specs, world, failures);
      } else {
        ghost var decided := world;
        io := FinishWithout();
        RecoveryKeepsPending(specs, reports, decided, world, failures);
        MoreFailures(specs, world, failures);
        outcome := OutcomeOf(io);
      }
    }

    /** One reconcile attempt on the CR as stored. A crash may come at any request, so what holds
        after every attempt holds at every moment of one. */
    method Reconcile(rollingUpdate: bool, replies: seq<Reply>, ghost failures: nat) returns (outcome: Outcome)
      requires Valid() && WorldInv(specs, world, failures)
      modifies this
      ensures Valid() && WorldInv(specs, world, failures + (if outcome.Finished? then 0 else 1))
      ensures FreshUntouched(specs, old(world), world)
      ensures outcome.Finished? && rollingUpdate && specs != [] ==> world.allocation && world.phase == Done
      ensures outcome.Finished? && rollingUpdate && (forall k | 0 <= k < |specs| :: specs[k].onDelete) ==>
                AllComplete(specs, world, failures)
      ensures !outcome.Crashed? ==> asked == [] || asked[|asked| - 1]
      ensures replies == [] ==> outcome.Finished?
      ensures outcome.Finished? ==> faults == 0
      ensures !rollingUpdate ==> outcome.Finished? && world == old(world)
      ensures specs == [] ==> OnlyRecovers(old(world), world) && asked == []
      ensures AllOnDelete(specs) ==>
              world.phase in {old(world).phase, Running} || AllComplete(specs, world, failures)
      ensures !AllOnDelete(specs) ==> Calm(old(world), world)
      ensures rollingUpdate && FailsWithin(replies, 1 + |specs|) ==>
              !outcome.Finished? && OnlyRecovers(old(world), world) && asked == []
      ensures rollingUpdate && old(world).phase != Running && AllOnDelete(specs) && specs != []
              && FailsWithin(replies, 2 + |specs|) ==>
                !outcome.Finished? && OnlyStatus(specs, old(world), world, failures) && asked == []
      ensures rollingUpdate ==> forall k | CrashesAt(specs, old(world), replies, k) ::
                outcome.Crashed? && world == StruckAt(specs, Begun(old(world), replies[0].pods), k)
    {
      statuses, phase, script, asked, faults := world.saved, world.phase, replies, [], 0;
      if !rollingUpdate {
        return Finished;
      }
      forall k | CrashesAt(specs, world, replies, k)
        ensures CrashGoesOn(specs, world, replies, k)
      {
        ReachesStart(specs, world, replies, k);
      }
      var io, reports := ReadCluster(failures);
      MoreFailures(specs, world, failures);
      if !io.Ok? || specs == [] { return OutcomeOf(io); }
      ghost var read := world;
      outcome := UpdateIfNeeded(reports, failures);
      AfterReading(specs, reports, old(world), read, world, failures);
    }

    /** Connects to the cluster and reads the sets. */
    method ReadCluster(ghost failures: nat) returns (io: Io, reports: seq<nat>)
      requires Valid() && WorldInv(specs, world, failures)
      modifies `world, `script, `faults
      ensures Valid() && OnlyRecovers(old(world), world) && WorldInv(specs, world, failures)
      ensures io.Ok? ==> |reports| == |specs| && AllPending(specs, reports, world, failures)
      ensures io.Ok? ==> OnTurn(specs, reports, world.pods, 0) && CountedFresh(specs, reports, old(world))
      ensures old(script) == [] ==> io.Ok? && script == []
      ensures io.Ok? ==> faults == old(faults)
      ensures old(script) != [] && Recovers(old(world).pods, old(script)[0].pods)
              && Quiet(old(script), 1 + |specs|, old(script)[0].pods) ==>
                && io.Ok? && world == old(world).(pods := old(script)[0].pods)
                && script == old(script)[1 + |specs|..] && reports == Counts(world.pods)
      ensures io.Ok? && 1 + |specs| <= |old(script)| ==> script == old(script)[1 + |specs|..]
      ensures FailsWithin(old(script), 1 + |specs|) ==> !io.Ok?
      ensures io.Ok? && FailsWithin(old(script), 2 + |specs|) ==> FailsWithin(script, 1)
    {
      reports := [];
      io := Ask();
      RecoveryKeepsPending(specs, [], old(world), world, failures);
      if !io.Ok? { return; }
      ghost var connected := world;
      if old(script) != [] && Quiet(old(script), 1 + |specs|, old(script)[0].pods) {
        QuietSplits(old(script), 1, |specs|, old(script)[0].pods);
      }
      io, reports := GetStatefulSets(failures);
      RecoversTransitively(old(world).pods, connected.pods, world.pods);
      if io.Ok? {
        RecoveryKeepsCount(specs, reports, old(world), connected);
        if FailsWithin(old(script), 2 + |specs|) {
          FailsNext(old(script), script, 1 + |specs|);
        }
      }
    }

    /** No update is needed: the status becomes done and allocation is enabled. */
    method FinishWithout() returns (io: Io)
      requires Valid()
      modifies `world, `script, `faults, `phase, `asked
      ensures Valid() && Calm(old(world), world)
      ensures io.Ok? ==> world.allocation && world.phase == Done
      ensures asked == old(asked) || asked == old(asked) + [true]
      ensures old(script) == [] ==> io.Ok? && script == []
      ensures io.Ok? ==> faults == old(faults)
      ensures FailsWithin(old(script), 1) ==>
              !io.Ok? && asked == old(asked) && world == old(world).(pods := world.pods, phase := world.phase)
    {
      io := UpdatePhase(Done);
      if !io.Ok? { return; }
      ghost var marked := world;
      io := EnableAllocationIfNecessary();
      CalmTransitively(old(world), marked, world);
    }

    /** Any sequence of attempts, each disturbed by its own script, from pods that are all of the old
        revision and ready. In every set at most one pod is down, the recorded list counts down from
        the highest ordinal, and pods are deleted at most once each plus once per failed attempt. Of
        sets with a pod down all but the last have only pod 0 down and count as updated. An undisturbed
        last attempt completes the update wherever the earlier ones stopped. */
    method RunAttempts(scripts: seq<seq<Reply>>) returns (failures: nat)
      requires Valid()
      requires forall k | 0 <= k < |specs| :: Unstarted(specs[k], world.saved[k], world.pods[k], world.deletions[k])
      modifies this
      ensures Valid() && failures <= |scripts| && WorldInv(specs, world, failures)
      ensures forall k | 0 <= k < |specs| :: world.deletions[k] <= specs[k].replicas + failures
      ensures forall k, i, j | 0 <= k < |specs| && 0 <= i < specs[k].replicas && 0 <= j < specs[k].replicas ::
                Down(world.pods[k][i]) && Down(world.pods[k][j]) ==> i == j
      ensures forall k | 0 <= k < |specs| ::
                || Complete(specs[k], world.pods[k], world.deletions[k], failures)
                || Recorded(specs[k], world.saved[k], world.pods[k])
      ensures forall j, k, a, b | 0 <= j < k < |specs| && 0 <= a < specs[j].replicas && 0 <= b < specs[k].replicas ::
                Down(world.pods[j][a]) && Down(world.pods[k][b]) ==>
                  a == 0 && FreshCount(world.pods[j]) == specs[j].replicas
      ensures forall j, k | 0 <= j < k < |specs| ::
                AnyDown(world.pods[j]) && AnyDown(world.pods[k]) <==>
                ZeroStarting(world.pods[j]) && AnyDown(world.pods[k])
      ensures scripts != [] && scripts[|scripts| - 1] == [] && (forall k | 0 <= k < |specs| :: specs[k].onDelete) ==>
                AllComplete(specs, world, failures)
      ensures (forall n | 0 <= n < |scripts| :: scripts[n] == []) ==> failures == 0
    {
      failures := 0;
      for n := 0 to |scripts|
        invariant Valid() && failures <= n && WorldInv(specs, world, failures)
        invariant (forall m | 0 <= m < n :: scripts[m] == []) ==> failures == 0
        invariant n > 0 && scripts[n - 1] == [] && (forall k | 0 <= k < |specs| :: specs[k].onDelete) ==>
                    AllComplete(specs, world, failures)
      {
        var outcome := Reconcile(true, scripts[n], failures);
        if !outcome.Finished? {
          failures := failures + 1;
        }
      }
      forall k | 0 <= k < |specs|
        ensures world.deletions[k] <= specs[k].replicas + failures
        ensures || Complete(specs[k], world.pods[k], world.deletions[k], failures)
                || Recorded(specs[k], world.saved[k], world.pods[k])
      {
        assert SetInv(specs[k], world.saved[k], world.pods[k], world.deletions[k], failures);
      }
      forall k, i, j | 0 <= k < |specs| && 0 <= i < specs[k].replicas && 0 <= j < specs[k].replicas
        ensures Down(world.pods[k][i]) && Down(world.pods[k][j]) ==> i == j
      {
        if Down(world.pods[k][i]) && Down(world.pods[k][j]) {
          AtMostOnePodDown(specs[k], world.saved[k], world.pods[k], world.deletions[k], failures, i, j);
        }
      }
      forall j, k, a, b | 0 <= j < k < |specs| && 0 <= a < specs[j].replicas && 0 <= b < specs[k].replicas
        ensures Down(world.pods[j][a]) && Down(world.pods[k][b]) ==>
                a == 0 && FreshCount(world.pods[j]) == specs[j].replicas
      {
        if Down(world.pods[j][a]) && Down(world.pods[k][b]) {
          DownAcrossSets(world.pods, j, k, a, b);
        }
      }
      forall j, k | 0 <= j < k < |specs|
        ensures AnyDown(world.pods[j]) && AnyDown(world.pods[k]) <==>
                ZeroStarting(world.pods[j]) && AnyDown(world.pods[k])
      {
        DownTogetherExactly(world.pods, j, k);
      }
    }
  }

  // ----- Pods of two sets down -----

  function CrashScript(n: nat, pods: seq<seq<Pod>>): (r: seq<Reply>)
    ensures CrashAfter(r, n, pods)
  {
    seq(n, _ => Reply(Ok, pods)) + [Reply(Crash(true), pods)]
  }

  /** Neither set was touched yet. */
  const BEFORE := World([[Old], [Old]], [None, None], Unset, true, [0, 0])

  lemma FirstCrash(specs: seq<SetSpec>)
    requires |specs| == 2 && AllOnDelete(specs) && specs[0].replicas == specs[1].replicas == 1
    ensures Shaped(specs, BEFORE) && CrashesAt(specs, BEFORE, CrashScript(9, BEFORE.pods), 0)
    ensures StruckAt(specs, Begun(BEFORE, BEFORE.pods), 0) == Between(specs)
  {
    assert [Old][0 := Missing] == [Missing];
    var script := CrashScript(9, BEFORE.pods);
    assert script[8..][0] == script[8] && script[8..][1] == script[9];
    assert [Old][1..] == [] && FreshCount([Old]) == 0;
  }

  /** Pod 0 of the first set was deleted by an update that is still recorded as running. */
  function Between(specs: seq<SetSpec>): World
    requires |specs| == 2
  {
    World([[Missing], [Old]], [Some(Entry(specs[0].generation, [])), None], Running, false, [1, 0])
  }

  lemma SecondCrash(specs: seq<SetSpec>)
    requires |specs| == 2 && AllOnDelete(specs) && specs[0].replicas == specs[1].replicas == 1
    ensures Shaped(specs, Between(specs))
    ensures CrashesAt(specs, Between(specs), CrashScript(4, [[Fresh(false)], [Old]]), 1)
  {
    var script := CrashScript(4, [[Fresh(false)], [Old]]);
    assert script[3..][0] == script[3] && script[3..][1] == script[4];
    assert [Old][1..] == [] && [Fresh(false)][1..] == [];
    assert FreshCount([Old]) == 0 && FreshCount([Fresh(false)]) == 1;
  }

  /** It does happen. The first attempt crashes after deleting pod 0 of the first set. That pod comes
      back, not ready, so the next attempt goes on to the second set and deletes its pod 0. */
  method TwoSetsDown(operator: Operator)
    requires operator.specs == [SetSpec(1, 1, true), SetSpec(1, 1, true)] && operator.Valid()
    requires operator.world == BEFORE
    modifies operator
    ensures operator.Valid() && WorldInv(operator.specs, operator.world, 2)
    ensures Down(operator.world.pods[0][0]) && Down(operator.world.pods[1][0])
  {
    FirstCrash(operator.specs);
    var outcome := operator.Reconcile(true, CrashScript(9, BEFORE.pods), 0);
    assert operator.world == Between(operator.specs);
    SecondCrash(operator.specs);
    outcome := operator.Reconcile(true, CrashScript(4, [[Fresh(false)], [Old]]), 1);
  }
}
