/** The replication watcher against the switchover in `Configure`: any number of watcher goroutines
    and one reconciler share the watcher state, the lock and the custom resource (CR).

    A step is one access to shared data. Reads and writes of the CR are linearizable, the state
    string is sequentially consistent, and the controller runs one `Configure` at a time. Whether
    replication is healthy, whether a write succeeds and what the user puts in the spec is open. */
module ReplicationWatcher {
  import opened Basics

  type Id = nat

  /** A goroutine of `watch`. `readAt` is the value of `stamp` when it read the CR that justifies
      the pending check. `Checking`, `TestingState` and `Restarting` hold the lock. */
  datatype Watcher =
    | AtTop
    | ReadingCr
    | AwaitingLock(readAt: nat)
    | Checking(readAt: nat)
    | TestingState(readAt: nat)
    | Restarting(readAt: nat)
    | AfterCheck
    | Sleeping

  /** A call of `Configure`. `standby` is whether the spec it was given asks for standby, `held`
      whether it took the lock, `failed` whether its error variable is set. */
  datatype Configure =
    | Idle
    | Pausing(standby: bool)
    | AwaitingSwitch(standby: bool)
    | Entered(standby: bool)
    | Switching(standby: bool)
    | Toggling(standby: bool, held: bool, failed: bool)
    | Releasing(standby: bool, held: bool, failed: bool)
    | Recording(standby: bool, held: bool, failed: bool)

  datatype Owner = Switchover | ByWatcher(id: Id)
  /** `Other` is any other string, in particular the empty one. */
  datatype Status = Done | SwitchRunning | Failed | Queued | Other

  datatype State = State(
    running: bool,               // the watcher state is "running" rather than "paused"
    lock: Option<Owner>,
    watchers: map<Id, Watcher>,
    configure: Configure,
    specStandby: bool,           // CR spec.disasterRecovery.mode is "standby"
    statusStandby: bool,         // CR status.disasterRecoveryStatus.mode is "standby"
    status: Status,              // CR status.disasterRecoveryStatus.status
    stamp: nat)                  // switchover sections entered plus sections left

  /** Steps of `Configure`, of the user and of the disaster-recovery manager. */
  datatype MainStep =
    | ChangeSpec(standby: bool)
    | Queue
    | Begin(otherReason: bool)
    | Pause
    | LockForSwitch
    | WriteRunning(ok: bool, applied: bool)
    | Abort
    | FinishSwitch(failed: bool)
    | Start(newId: Id)
    | Stop
    | Release
    | Record(applied: bool)

  /** Steps of a watcher goroutine. */
  datatype WatcherStep =
    | TestTop
    | ReadCr(ok: bool)
    | TakeLock
    | Check(healthy: bool)
    | TestState
    | FinishRestart
    | TestAfter
    | Wake

  datatype Action = Main(step: MainStep) | Goroutine(id: Id, move: WatcherStep)

  function Init(specStandby: bool, statusStandby: bool, status: Status): State {
    State(false, None, map[], Idle, specStandby, statusStandby, status, 0)
  }

  /** A status that asks for a switchover. */
  predicate Due(status: Status) {
    status.SwitchRunning? || status.Failed? || status.Queued?
  }

  /** `crCondition || drConfigHashChanged`; the second disjunct and changes among the modes other
      than standby are `otherReason`. */
  predicate SwitchNeeded(s: State, otherReason: bool) {
    s.specStandby != s.statusStandby || Due(s.status) || otherReason
  }

  predicate MainEnabled(s: State, m: MainStep) {
    match m
    case ChangeSpec(_) => true
    case Queue => true
    case Begin(_) => s.configure.Idle?
    case Pause => s.configure.Pausing?
    case LockForSwitch => s.configure.AwaitingSwitch? && s.lock.None?
    case WriteRunning(ok, applied) => s.configure.Entered? && (ok ==> applied)
    case Abort => s.configure.Switching?
    case FinishSwitch(_) => s.configure.Switching?
    case Start(newId) => s.configure.Toggling? && newId !in s.watchers
    case Stop => s.configure.Toggling?
    case Release => s.configure.Releasing?
    case Record(_) => s.configure.Recording?
  }

  function ApplyMain(s: State, m: MainStep): State
    requires MainEnabled(s, m)
  {
    match m
    case ChangeSpec(standby) => s.(specStandby := standby)
    case Queue => s.(status := Queued)
    case Begin(otherReason) =>
      if SwitchNeeded(s, otherReason) then s.(configure := Pausing(s.specStandby))
      else s.(configure := Toggling(s.specStandby, false, false))
    case Pause => s.(running := false, configure := AwaitingSwitch(s.configure.standby))
    case LockForSwitch =>
      s.(lock := Some(Switchover), stamp := s.stamp + 1, configure := Entered(s.configure.standby))
    case WriteRunning(ok, applied) =>
      var standby := s.configure.standby;
      var t := if applied then s.(statusStandby := standby, status := SwitchRunning) else s;
      t.(configure := if ok then Switching(standby) else Releasing(standby, true, true))
    case Abort => s.(configure := Releasing(s.configure.standby, true, true))
    case FinishSwitch(failed) => s.(configure := Toggling(s.configure.standby, true, failed))
    case Start(newId) =>
      var t := s.(configure := Releasing(s.configure.standby, s.configure.held, s.configure.failed));
      if s.running then t else t.(running := true, watchers := s.watchers[newId := AtTop])
    case Stop =>
      s.(running := false, configure := Releasing(s.configure.standby, s.configure.held, s.configure.failed))
    case Release =>
      var t := s.(configure := Recording(s.configure.standby, s.configure.held, s.configure.failed));
      if s.configure.held then t.(lock := None, stamp := s.stamp + 1) else t
    case Record(applied) =>
      var t := s.(configure := Idle);
      if applied then
        t.(statusStandby := s.configure.standby, status := if s.configure.failed then Failed else Done)
      else t
  }

  predicate MoveEnabled(s: State, w: Watcher, move: WatcherStep) {
    match move
    case TestTop => w.AtTop?
    case ReadCr(_) => w.ReadingCr?
    case TakeLock => w.AwaitingLock? && s.lock.None?
    case Check(_) => w.Checking?
    case TestState => w.TestingState?
    case FinishRestart => w.Restarting?
    case TestAfter => w.AfterCheck?
    case Wake => w.Sleeping?
  }

  /** Where the goroutine goes; `None` when it returns. */
  function Moved(s: State, w: Watcher, move: WatcherStep): Option<Watcher>
    requires MoveEnabled(s, w, move)
  {
    match move
    case TestTop => if s.running then Some(ReadingCr) else None
    case ReadCr(ok) =>
      if ok && s.specStandby && s.statusStandby && s.status.Done? then Some(AwaitingLock(s.stamp))
      else Some(Sleeping)
    case TakeLock => Some(Checking(w.readAt))
    case Check(healthy) => if healthy then Some(AfterCheck) else Some(TestingState(w.readAt))
    case TestState => if s.running then Some(Restarting(w.readAt)) else Some(AfterCheck)
    case FinishRestart => Some(AfterCheck)
    case TestAfter => if s.running then Some(Sleeping) else None
    case Wake => Some(AtTop)
  }

  predicate HoldsLock(w: Watcher) {
    w.Checking? || w.TestingState? || w.Restarting?
  }

  /** The deferred unlock runs when a goroutine leaves `restartReplicationOnFailure`. */
  function ApplyMove(s: State, id: Id, move: WatcherStep): State
    requires id in s.watchers && MoveEnabled(s, s.watchers[id], move)
  {
    var w := s.watchers[id];
    match Moved(s, w, move)
    case None => s.(watchers := s.watchers - {id})
    case Some(v) =>
      var lock := if HoldsLock(v) then Some(ByWatcher(id)) else if HoldsLock(w) then None else s.lock;
      s.(watchers := s.watchers[id := v], lock := lock)
  }

  predicate Enabled(s: State, a: Action) {
    match a
    case Main(m) => MainEnabled(s, m)
    case Goroutine(id, move) => id in s.watchers && MoveEnabled(s, s.watchers[id], move)
  }

  function Apply(s: State, a: Action): State
    requires Enabled(s, a)
  {
    match a
    case Main(m) => ApplyMain(s, m)
    case Goroutine(id, move) => ApplyMove(s, id, move)
  }

  predicate Legal(s: State, acts: seq<Action>)
    decreases |acts|
  {
    acts == [] || (Enabled(s, acts[0]) && Legal(Apply(s, acts[0]), acts[1..]))
  }

  function Run(s: State, acts: seq<Action>): State
    requires Legal(s, acts)
    decreases |acts|
  {
    if acts == [] then s else Run(Apply(s, acts[0]), acts[1..])
  }

  // ----- Invariants of every run -----

  predicate Pending(w: Watcher) {
    w.AwaitingLock? || HoldsLock(w)
  }

  /** A switchover section started, ran or ended since the CR read behind this pending check. */
  predicate Outdated(s: State, w: Watcher)
    requires Pending(w)
  {
    w.readAt != s.stamp
  }

  /** `Configure` is between its lock and its deferred unlock. */
  predicate InSection(c: Configure) {
    c.Entered? || c.Switching? || ((c.Toggling? || c.Releasing?) && c.held)
  }

  /** `Configure` runs past its toggle without a switchover section. */
  predicate PlainPass(c: Configure) {
    (c.Toggling? || c.Releasing? || c.Recording?) && !c.held
  }

  /** The CR records a settled standby side. */
  predicate StandbySettled(s: State) {
    s.statusStandby && (s.status.Done? || s.status.Queued?)
  }

  /** Paused from the pause before the lock up to the toggle after the section; the CR status is not
      "done" from the first status write of a section up to its last, and names the side switched to. */
  predicate SwitchInv(s: State) {
    && (s.lock == Some(Switchover) <==> InSection(s.configure))
    && match s.configure
       case AwaitingSwitch(_) => !s.running
       case Entered(_) => !s.running
       case Switching(standby) => !s.running && !s.status.Done? && s.statusStandby == standby
       case Toggling(standby, held, failed) =>
         if held then !s.running && !s.status.Done? && s.statusStandby == standby
         else !failed && standby == s.statusStandby && (Due(s.status) ==> s.status.Queued?)
       case Releasing(standby, held, failed) =>
         if held then (s.running || !failed ==> !s.status.Done?)
         else !failed && standby == s.statusStandby && (Due(s.status) ==> s.status.Queued?)
       case Recording(standby, held, failed) =>
         if held then (s.running || !failed ==> !s.status.Done?)
         else !failed && standby == s.statusStandby && (Due(s.status) ==> s.status.Queued?)
       case _ => true
  }

  /** The goroutine and the lock agree. */
  predicate LockAgrees(s: State, id: Id, w: Watcher) {
    HoldsLock(w) <==> s.lock == Some(ByWatcher(id))
  }

  /** A pending check that is not outdated still agrees with the CR, unless the watcher is paused
      with a switchover due. */
  predicate CrAgrees(s: State, w: Watcher) {
    Pending(w) ==>
      && w.readAt <= s.stamp
      && (!Outdated(s, w) && !InSection(s.configure) ==>
            && (StandbySettled(s) || (!s.running && Due(s.status) && !PlainPass(s.configure)))
            && (s.configure.Recording? && s.configure.held ==> !s.running && s.configure.failed))
  }

  predicate LockInv(s: State) {
    && (s.lock.Some? && s.lock.value.ByWatcher? ==> s.lock.value.id in s.watchers)
    && forall id <- s.watchers :: LockAgrees(s, id, s.watchers[id])
  }

  predicate CrInv(s: State) {
    forall id <- s.watchers :: CrAgrees(s, s.watchers[id])
  }

  predicate Inv(s: State) {
    SwitchInv(s) && LockInv(s) && CrInv(s)
  }

  lemma MainKeepsSwitchInv(s: State, m: MainStep)
    requires SwitchInv(s) && MainEnabled(s, m)
    ensures SwitchInv(ApplyMain(s, m))
  {
  }

  lemma MainKeepsCrAgreement(s: State, m: MainStep, w: Watcher)
    requires SwitchInv(s) && CrAgrees(s, w) && MainEnabled(s, m)
    ensures CrAgrees(ApplyMain(s, m), w)
  {
    match m
    case Begin(_) =>
    case Release =>
    case Record(_) =>
    case _ =>
  }

  lemma MainKeepsLockInv(s: State, m: MainStep)
    requires SwitchInv(s) && LockInv(s) && MainEnabled(s, m)
    ensures LockInv(ApplyMain(s, m))
  {
    var t := ApplyMain(s, m);
    forall id <- t.watchers ensures LockAgrees(t, id, t.watchers[id]) {
      if id in s.watchers {
        assert LockAgrees(s, id, s.watchers[id]);
      }
    }
  }

  lemma MainKeepsCrInv(s: State, m: MainStep)
    requires SwitchInv(s) && CrInv(s) && MainEnabled(s, m)
    ensures CrInv(ApplyMain(s, m))
  {
    var t := ApplyMain(s, m);
    forall id <- t.watchers ensures CrAgrees(t, t.watchers[id]) {
      if id in s.watchers {
        MainKeepsCrAgreement(s, m, s.watchers[id]);
      }
    }
  }

  lemma MoveKeepsLockInv(s: State, id: Id, move: WatcherStep)
    requires LockInv(s) && id in s.watchers && MoveEnabled(s, s.watchers[id], move)
    ensures LockInv(ApplyMove(s, id, move))
    ensures (ApplyMove(s, id, move).lock == Some(Switchover)) == (s.lock == Some(Switchover))
  {
    assert LockAgrees(s, id, s.watchers[id]);
  }

  lemma MoveKeepsSwitchInv(s: State, id: Id, move: WatcherStep)
    requires SwitchInv(s) && LockInv(s) && id in s.watchers && MoveEnabled(s, s.watchers[id], move)
    ensures SwitchInv(ApplyMove(s, id, move))
  {
    MoveKeepsLockInv(s, id, move);
  }

  lemma MoveKeepsCrInv(s: State, id: Id, move: WatcherStep)
    requires SwitchInv(s) && CrInv(s) && id in s.watchers && MoveEnabled(s, s.watchers[id], move)
    ensures CrInv(ApplyMove(s, id, move))
  {
    var t := ApplyMove(s, id, move);
    forall j <- t.watchers ensures CrAgrees(t, t.watchers[j]) {
      assert CrAgrees(s, s.watchers[j]);
    }
  }

  lemma StepKeepsInv(s: State, a: Action)
    requires Inv(s) && Enabled(s, a)
    ensures Inv(Apply(s, a))
  {
    match a
    case Main(m) =>
      MainKeepsSwitchInv(s, m);
      MainKeepsLockInv(s, m);
      MainKeepsCrInv(s, m);
    case Goroutine(id, move) =>
      MoveKeepsSwitchInv(s, id, move);
      MoveKeepsLockInv(s, id, move);
      MoveKeepsCrInv(s, id, move);
  }

  lemma {:induction false} RunKeepsInv(s: State, acts: seq<Action>)
    requires Inv(s) && Legal(s, acts)
    ensures Inv(Run(s, acts))
    decreases |acts|
  {
    if acts != [] {
      StepKeepsInv(s, acts[0]);
      RunKeepsInv(Apply(s, acts[0]), acts[1..]);
    }
  }

  predicate Initial(s: State) {
    s == Init(s.specStandby, s.statusStandby, s.status)
  }

  /** In every interleaving a restart of the replication never overlaps the switchover section,
      nor another restart. */
  lemma RestartExcludesSwitchover(start: State, acts: seq<Action>, i: Id)
    requires Initial(start) && Legal(start, acts)
    requires i in Run(start, acts).watchers && Run(start, acts).watchers[i].Restarting?
    ensures var s := Run(start, acts);
            !InSection(s.configure) && forall j <- s.watchers :: s.watchers[j].Restarting? ==> j == i
  {
    RunKeepsInv(start, acts);
    var s := Run(start, acts);
    forall j <- s.watchers | s.watchers[j].Restarting? ensures j == i {
      assert LockAgrees(s, j, s.watchers[j]) && LockAgrees(s, i, s.watchers[i]);
    }
  }

  // ----- No restart while paused -----

  predicate IsStart(a: Action) {
    a.Main? && a.step.Start?
  }

  /** No `start` is called within `acts`. */
  predicate NoStart(acts: seq<Action>) {
    forall i | 0 <= i < |acts| :: !IsStart(acts[i])
  }

  ghost predicate NobodyRestarts(s: State) {
    forall id <- s.watchers :: !s.watchers[id].Restarting?
  }

  lemma {:induction false} PausedNeverRestarts(s: State, acts: seq<Action>)
    requires !s.running && NobodyRestarts(s) && Legal(s, acts) && NoStart(acts)
    ensures NobodyRestarts(Run(s, acts))
    decreases |acts|
  {
    if acts != [] {
      assert !IsStart(acts[0]);
      PausedNeverRestarts(Apply(s, acts[0]), acts[1..]);
    }
  }

  /** From the moment the switchover takes the lock until a later `start`, no goroutine restarts the
      replication, however many are waiting with a check that an earlier CR read justified. */
  lemma NoRestartFromSwitchoverToStart(start: State, before: seq<Action>, after: seq<Action>)
    requires Initial(start) && Legal(start, before) && MainEnabled(Run(start, before), LockForSwitch)
    requires Legal(ApplyMain(Run(start, before), LockForSwitch), after) && NoStart(after)
    ensures NobodyRestarts(Run(ApplyMain(Run(start, before), LockForSwitch), after))
  {
    RunKeepsInv(start, before);
    var s := Run(start, before);
    forall id <- s.watchers ensures !s.watchers[id].Restarting? {
      assert LockAgrees(s, id, s.watchers[id]);
    }
    PausedNeverRestarts(ApplyMain(s, LockForSwitch), after);
  }

  // ----- Pausing -----

  lemma {:induction false} PausedNoNewRestart(s: State, acts: seq<Action>, id: Id)
    requires !s.running && Legal(s, acts) && NoStart(acts)
    requires id in Run(s, acts).watchers && Run(s, acts).watchers[id].Restarting?
    ensures id in s.watchers && s.watchers[id].Restarting?
    decreases |acts|
  {
    if acts != [] {
      assert !IsStart(acts[0]);
      PausedNoNewRestart(Apply(s, acts[0]), acts[1..], id);
    }
  }

  /** After the watcher was switched off, until a later `start`, no goroutine begins a restart. */
  lemma NoNewRestartAfterStop(s: State, acts: seq<Action>, id: Id)
    requires MainEnabled(s, Stop) && Legal(ApplyMain(s, Stop), acts) && NoStart(acts)
    requires id in Run(ApplyMain(s, Stop), acts).watchers && Run(ApplyMain(s, Stop), acts).watchers[id].Restarting?
    ensures id in s.watchers && s.watchers[id].Restarting?
  {
    PausedNoNewRestart(ApplyMain(s, Stop), acts, id);
  }

  /** The steps a goroutine takes at most before it returns, while the watcher is paused. */
  function StepsLeft(w: Watcher): nat {
    match w
    case AtTop => 1
    case ReadingCr => 5
    case AwaitingLock(_) => 4
    case Checking(_) => 3
    case TestingState(_) => 2
    case Restarting(_) => 2
    case AfterCheck => 1
    case Sleeping => 2
  }

  function MovesOf(acts: seq<Action>, id: Id): nat {
    if acts == [] then 0
    else (if acts[0].Goroutine? && acts[0].id == id then 1 else 0) + MovesOf(acts[1..], id)
  }

  lemma {:induction false} GoneStaysGone(s: State, acts: seq<Action>, id: Id)
    requires id !in s.watchers && Legal(s, acts) && NoStart(acts)
    ensures MovesOf(acts, id) == 0 && id !in Run(s, acts).watchers
    decreases |acts|
  {
    if acts != [] {
      assert !IsStart(acts[0]);
      GoneStaysGone(Apply(s, acts[0]), acts[1..], id);
    }
  }

  /** A paused watcher winds down: without another `start` every goroutine takes a bounded number of steps,
      and one that took them all has returned. */
  lemma {:induction false} PausedWatchersLeave(s: State, acts: seq<Action>, id: Id)
    requires !s.running && id in s.watchers && Legal(s, acts) && NoStart(acts)
    ensures var t := Run(s, acts);
            MovesOf(acts, id) + (if id in t.watchers then StepsLeft(t.watchers[id]) else 0) <= StepsLeft(s.watchers[id])
    ensures MovesOf(acts, id) == StepsLeft(s.watchers[id]) ==> id !in Run(s, acts).watchers
    decreases |acts|
  {
    if acts != [] {
      assert !IsStart(acts[0]);
      var t := Apply(s, acts[0]);
      if id in t.watchers {
        PausedWatchersLeave(t, acts[1..], id);
      } else {
        GoneStaysGone(t, acts[1..], id);
      }
    }
  }

  /** The calls of `start` that find the watcher paused. */
  function WakingStarts(s: State, acts: seq<Action>): nat
    requires Legal(s, acts)
    decreases |acts|
  {
    if acts == [] then 0
    else (if IsStart(acts[0]) && !s.running then 1 else 0) + WakingStarts(Apply(s, acts[0]), acts[1..])
  }

  lemma SizeOfUpdate<K, V>(m: map<K, V>, k: K, v: V)
    ensures |m[k := v]| == |m| + (if k in m then 0 else 1)
  {
    assert m[k := v].Keys == m.Keys + {k};
  }

  lemma SizeOfRemoval<K, V>(m: map<K, V>, k: K)
    requires k in m
    ensures |m - {k}| == |m| - 1
  {
    assert (m - {k}).Keys == m.Keys - {k};
  }

  lemma MainCount(s: State, m: MainStep)
    requires MainEnabled(s, m)
    ensures |ApplyMain(s, m).watchers| == |s.watchers| + (if m.Start? && !s.running then 1 else 0)
    ensures m.Start? ==> ApplyMain(s, m).running
  {
    if m.Start? {
      SizeOfUpdate(s.watchers, m.newId, AtTop);
    }
  }

  lemma MoveCount(s: State, id: Id, move: WatcherStep)
    requires id in s.watchers && MoveEnabled(s, s.watchers[id], move)
    ensures |ApplyMove(s, id, move).watchers| <= |s.watchers|
  {
    match Moved(s, s.watchers[id], move)
    case None => SizeOfRemoval(s.watchers, id);
    case Some(v) => SizeOfUpdate(s.watchers, id, v);
  }

  lemma CountAfterStep(s: State, a: Action)
    requires Enabled(s, a)
    ensures |Apply(s, a).watchers| <= |s.watchers| + (if IsStart(a) && !s.running then 1 else 0)
  {
    match a
    case Main(m) => MainCount(s, m);
    case Goroutine(id, move) => MoveCount(s, id, move);
  }

  /** Only a `start` that finds the watcher paused adds a goroutine, and it adds one. */
  lemma {:induction false} OneGoroutinePerWakingStart(s: State, acts: seq<Action>)
    requires Legal(s, acts)
    ensures |Run(s, acts).watchers| <= |s.watchers| + WakingStarts(s, acts)
    decreases |acts|
  {
    if acts != [] {
      CountAfterStep(s, acts[0]);
      OneGoroutinePerWakingStart(Apply(s, acts[0]), acts[1..]);
    }
  }

  // ----- One pass of `Configure` -----

  predicate IsRecord(a: Action) {
    a.Main? && a.step.Record?
  }

  /** The step sets the error of the pass. */
  predicate Fails(a: Action) {
    a.Main? && match a.step
    case Abort => true
    case WriteRunning(ok, _) => !ok
    case FinishSwitch(failed) => failed
    case _ => false
  }

  predicate SomeFails(acts: seq<Action>) {
    exists i | 0 <= i < |acts| :: Fails(acts[i])
  }

  predicate HasFailed(c: Configure) {
    (c.Toggling? || c.Releasing? || c.Recording?) && c.failed
  }

  lemma SomeFailsCons(acts: seq<Action>)
    requires acts != []
    ensures SomeFails(acts) <==> Fails(acts[0]) || SomeFails(acts[1..])
  {
    assert forall i | 0 < i < |acts| :: acts[i] == acts[1..][i - 1];
  }

  lemma MainCarriesPass(s: State, m: MainStep)
    requires !s.configure.Idle? && MainEnabled(s, m) && !m.Record?
    ensures var c := ApplyMain(s, m).configure;
            !c.Idle? && c.standby == s.configure.standby && (HasFailed(c) <==> HasFailed(s.configure) || Fails(Main(m)))
  {
    match m
    case WriteRunning(_, _) =>
    case Start(_) =>
    case _ =>
  }

  lemma StepCarriesPass(s: State, a: Action)
    requires !s.configure.Idle? && Enabled(s, a) && !IsRecord(a)
    ensures var c := Apply(s, a).configure;
            !c.Idle? && c.standby == s.configure.standby && (HasFailed(c) <==> HasFailed(s.configure) || Fails(a))
  {
    match a
    case Main(m) => MainCarriesPass(s, m);
    case Goroutine(id, move) => assert Apply(s, a).configure == s.configure;
  }

  lemma {:induction false} RunCarriesPass(s: State, acts: seq<Action>)
    requires !s.configure.Idle? && Legal(s, acts) && forall i | 0 <= i < |acts| :: !IsRecord(acts[i])
    ensures var c := Run(s, acts).configure;
            && !c.Idle? && c.standby == s.configure.standby
            && (HasFailed(c) <==> HasFailed(s.configure) || SomeFails(acts))
    decreases |acts|
  {
    if acts != [] {
      assert !IsRecord(acts[0]) && forall i | 0 <= i < |acts[1..]| :: acts[1..][i] == acts[i + 1];
      StepCarriesPass(s, acts[0]);
      SomeFailsCons(acts);
      RunCarriesPass(Apply(s, acts[0]), acts[1..]);
    }
  }

  /** A pass records the side its spec asked for when it began, whatever the user changed meanwhile, and the
      status failed exactly when one of its steps failed. */
  lemma RecordsWhatHappened(s: State, otherReason: bool, acts: seq<Action>)
    requires s.configure.Idle? && Legal(ApplyMain(s, Begin(otherReason)), acts)
    requires forall i | 0 <= i < |acts| :: !IsRecord(acts[i])
    requires Run(ApplyMain(s, Begin(otherReason)), acts).configure.Recording?
    ensures var t := ApplyMain(Run(ApplyMain(s, Begin(otherReason)), acts), Record(true));
            && t.configure.Idle? && t.statusStandby == s.specStandby
            && t.status == if SomeFails(acts) then Failed else Done
  {
    RunCarriesPass(ApplyMain(s, Begin(otherReason)), acts);
  }

  predicate IsBegin(a: Action) {
    a.Main? && a.step.Begin?
  }

  lemma {:induction false} NoToggleLeft(s: State, acts: seq<Action>)
    requires !s.running && (s.configure.Releasing? || s.configure.Recording? || s.configure.Idle?)
    requires Legal(s, acts) && forall i | 0 <= i < |acts| :: !IsBegin(acts[i])
    ensures !Run(s, acts).running && NoStart(acts)
    decreases |acts|
  {
    if acts != [] {
      assert !IsBegin(acts[0]) && forall i | 0 <= i < |acts[1..]| :: acts[1..][i] == acts[i + 1];
      NoToggleLeft(Apply(s, acts[0]), acts[1..]);
      assert !IsStart(acts[0]);
      assert forall i | 0 < i < |acts| :: acts[i] == acts[1..][i - 1];
    }
  }

  /** A section that is given up, because the status could not be written or a later step failed at once,
      leaves the watcher paused until the next pass. */
  lemma GivenUpStaysPaused(s: State, m: MainStep, acts: seq<Action>)
    requires Inv(s) && MainEnabled(s, m) && (m.Abort? || (m.WriteRunning? && !m.ok))
    requires Legal(ApplyMain(s, m), acts) && forall i | 0 <= i < |acts| :: !IsBegin(acts[i])
    ensures !Run(ApplyMain(s, m), acts).running && NoStart(acts)
  {
    NoToggleLeft(ApplyMain(s, m), acts);
  }

  lemma OneMainStep(s: State, m: MainStep)
    requires MainEnabled(s, m)
    ensures Legal(s, [Main(m)]) && Run(s, [Main(m)]) == ApplyMain(s, m)
  {
    assert [Main(m)][1..] == [];
  }

  lemma TwoMainSteps(s: State, a: MainStep, b: MainStep)
    requires MainEnabled(s, a) && MainEnabled(ApplyMain(s, a), b)
    ensures Legal(s, [Main(a), Main(b)]) && Run(s, [Main(a), Main(b)]) == ApplyMain(ApplyMain(s, a), b)
  {
    assert [Main(a), Main(b)][1..] == [Main(b)];
    OneMainStep(ApplyMain(s, a), b);
  }

  lemma ThreeMainSteps(s: State, a: MainStep, b: MainStep, c: MainStep)
    requires MainEnabled(s, a) && MainEnabled(ApplyMain(s, a), b) && MainEnabled(ApplyMain(ApplyMain(s, a), b), c)
    ensures Legal(s, [Main(a), Main(b), Main(c)])
    ensures Run(s, [Main(a), Main(b), Main(c)]) == ApplyMain(ApplyMain(ApplyMain(s, a), b), c)
  {
    assert [Main(a), Main(b), Main(c)][1..] == [Main(b), Main(c)];
    TwoMainSteps(ApplyMain(s, a), b, c);
  }

  /** Between two passes, asking for the other side or for a queued switchover makes the next pass switch over
      to what the spec then asks for. */
  lemma AskedForSwitchover(s: State, standby: bool)
    requires s.configure.Idle?
    ensures Legal(s, [Main(Queue), Main(Begin(false))])
    ensures Run(s, [Main(Queue), Main(Begin(false))]).configure == Pausing(s.specStandby)
    ensures Legal(s, [Main(ChangeSpec(standby)), Main(Begin(false))])
    ensures standby != s.statusStandby ==>
              Run(s, [Main(ChangeSpec(standby)), Main(Begin(false))]).configure == Pausing(standby)
  {
    TwoMainSteps(s, Queue, Begin(false));
    TwoMainSteps(s, ChangeSpec(standby), Begin(false));
  }

  /** A switchover can be given up in its section, and a pass can end with the watcher switched off; both free
      the lock. */
  lemma PassCanEndPaused(s: State, m: MainStep)
    requires Inv(s) && ((s.configure.Switching? && m == Abort) || (s.configure.Toggling? && m == Stop))
    ensures Legal(s, [Main(m), Main(Release), Main(Record(true))])
    ensures var t := Run(s, [Main(m), Main(Release), Main(Record(true))]);
            && t.configure.Idle? && !t.running && t.lock != Some(Switchover)
            && t.status == if m == Abort || s.configure.failed then Failed else Done
  {
    ThreeMainSteps(s, m, Release, Record(true));
  }

  // ----- One read per interval -----

  function ReadsOf(acts: seq<Action>, id: Id): nat {
    if acts == [] then 0
    else (if acts[0].Goroutine? && acts[0].id == id && acts[0].move.ReadCr? then 1 else 0) + ReadsOf(acts[1..], id)
  }

  function WakesOf(acts: seq<Action>, id: Id): nat {
    if acts == [] then 0
    else (if acts[0] == Goroutine(id, Wake) then 1 else 0) + WakesOf(acts[1..], id)
  }

  /** The goroutine reads before it sleeps again. */
  function ReadDue(s: State, id: Id): nat {
    if id in s.watchers && (s.watchers[id].AtTop? || s.watchers[id].ReadingCr?) then 1 else 0
  }

  lemma StepReads(s: State, a: Action, id: Id)
    requires Enabled(s, a) && a != Main(Start(id))
    ensures ReadsOf([a], id) + ReadDue(Apply(s, a), id) <= WakesOf([a], id) + ReadDue(s, id)
  {
    assert [a][1..] == [];
    match a
    case Main(m) =>
    case Goroutine(other, move) => if other == id { match move case ReadCr(_) => case _ => }
  }

  /** A goroutine sleeps between two reads of the CR: it reads at most once more than it wakes up. */
  lemma {:induction false} SleepsBetweenReads(s: State, acts: seq<Action>, id: Id)
    requires Legal(s, acts) && forall i | 0 <= i < |acts| :: acts[i] != Main(Start(id))
    ensures ReadsOf(acts, id) + ReadDue(Run(s, acts), id) <= WakesOf(acts, id) + ReadDue(s, id)
    decreases |acts|
  {
    if acts != [] {
      assert acts[0] != Main(Start(id)) && forall i | 0 <= i < |acts[1..]| :: acts[1..][i] == acts[i + 1];
      StepReads(s, acts[0], id);
      SleepsBetweenReads(Apply(s, acts[0]), acts[1..], id);
    }
  }

  // ----- Checks only while both sides are standby -----

  /** Spec and status both say standby, and the status is done. */
  predicate CrSettled(s: State) {
    s.specStandby && s.statusStandby && s.status.Done?
  }

  predicate NonePending(s: State) {
    forall id <- s.watchers :: !Pending(s.watchers[id])
  }

  /** The CR is not settled before any step of the run. */
  predicate NeverSettled(s: State, acts: seq<Action>)
    requires Legal(s, acts)
    decreases |acts|
  {
    acts == [] || (!CrSettled(s) && NeverSettled(Apply(s, acts[0]), acts[1..]))
  }

  lemma MoveToPending(s: State, w: Watcher, move: WatcherStep)
    requires MoveEnabled(s, w, move) && !Pending(w)
    ensures Moved(s, w, move).Some? && Pending(Moved(s, w, move).value) <==> move == ReadCr(true) && CrSettled(s)
  {
  }

  /** A check becomes pending exactly by a successful read of a settled CR. */
  lemma PendingExactly(s: State, a: Action, id: Id)
    requires Enabled(s, a) && id in s.watchers && id in Apply(s, a).watchers && !Pending(s.watchers[id])
    ensures Pending(Apply(s, a).watchers[id]) <==> a == Goroutine(id, ReadCr(true)) && CrSettled(s)
  {
    match a
    case Main(m) => assert Apply(s, a).watchers[id] == s.watchers[id];
    case Goroutine(other, move) =>
      if other == id {
        MoveToPending(s, s.watchers[id], move);
      } else {
        assert Apply(s, a).watchers[id] == s.watchers[id];
      }
  }

  lemma {:induction false} UnsettledNeverChecks(s: State, acts: seq<Action>)
    requires NonePending(s) && Legal(s, acts) && NeverSettled(s, acts)
    ensures NonePending(Run(s, acts)) && NobodyRestarts(Run(s, acts))
    decreases |acts|
  {
    if acts != [] {
      var t := Apply(s, acts[0]);
      forall id <- t.watchers
        ensures !Pending(t.watchers[id])
      {
        if id in s.watchers {
          PendingExactly(s, acts[0], id);
        }
      }
      UnsettledNeverChecks(t, acts[1..]);
    }
  }

  /** Neither side of the CR can become what it is not. */
  predicate SideStays(s: State, acts: seq<Action>) {
    || (!s.specStandby && forall i | 0 <= i < |acts| :: acts[i] != Main(ChangeSpec(true)))
    || (!s.statusStandby && forall i | 0 <= i < |acts| :: !WritesStatus(acts[i]))
    || (!s.status.Done? && forall i | 0 <= i < |acts| :: !(acts[i].Main? && acts[i].step.Record?))
  }

  predicate WritesStatus(a: Action) {
    a.Main? && (a.step.WriteRunning? || a.step.Record?)
  }

  lemma {:induction false} SideStaysUnsettled(s: State, acts: seq<Action>)
    requires Legal(s, acts) && SideStays(s, acts)
    ensures NeverSettled(s, acts)
    decreases |acts|
  {
    if acts != [] {
      assert forall i | 0 <= i < |acts[1..]| :: acts[1..][i] == acts[i + 1];
      SideStaysUnsettled(Apply(s, acts[0]), acts[1..]);
    }
  }

  /** Once no check is pending, none follows, and no restart, as long as the spec is not set to standby,
      or the status is not written when it is not standby, or not recorded when it is not done. */
  lemma NoCheckOnOneSide(s: State, acts: seq<Action>)
    requires NonePending(s) && Legal(s, acts) && SideStays(s, acts)
    ensures NonePending(Run(s, acts)) && NobodyRestarts(Run(s, acts))
  {
    SideStaysUnsettled(s, acts);
    UnsettledNeverChecks(s, acts);
  }

  predicate OnlyGoroutines(acts: seq<Action>) {
    forall i | 0 <= i < |acts| :: acts[i].Goroutine?
  }

  /** A running goroutine without a pending check comes to the top of its loop. */
  lemma ComesToTop(s: State, id: Id) returns (acts: seq<Action>)
    requires s.running && id in s.watchers && !Pending(s.watchers[id])
    ensures Legal(s, acts) && OnlyGoroutines(acts)
    ensures Run(s, acts) == s.(watchers := s.watchers[id := ReadingCr])
  {
    acts := [];
    if s.watchers[id].AfterCheck? {
      RunThen(s, acts, Goroutine(id, TestAfter));
      acts := acts + [Goroutine(id, TestAfter)];
    }
    if s.watchers[id].AfterCheck? || s.watchers[id].Sleeping? {
      RunThen(s, acts, Goroutine(id, Wake));
      acts := acts + [Goroutine(id, Wake)];
    }
    if !s.watchers[id].ReadingCr? {
      RunThen(s, acts, Goroutine(id, TestTop));
      acts := acts + [Goroutine(id, TestTop)];
    }
    assert Run(s, acts).watchers == s.watchers[id := ReadingCr];
  }

  ghost predicate LeadsToCheck(s: State, id: Id, acts: seq<Action>) {
    && Legal(s, acts) && OnlyGoroutines(acts)
    && id in Run(s, acts).watchers && Run(s, acts).watchers[id] == Checking(s.stamp)
  }

  lemma SettledLeadsToCheck(s: State, id: Id) returns (acts: seq<Action>)
    requires s.running && s.lock.None? && id in s.watchers && !Pending(s.watchers[id]) && CrSettled(s)
    ensures LeadsToCheck(s, id, acts)
  {
    acts := ComesToTop(s, id);
    RunThen(s, acts, Goroutine(id, ReadCr(true)));
    acts := acts + [Goroutine(id, ReadCr(true))];
    RunThen(s, acts, Goroutine(id, TakeLock));
    acts := acts + [Goroutine(id, TakeLock)];
  }

  lemma {:induction false} GoroutinesKeepCr(s: State, acts: seq<Action>)
    requires Legal(s, acts) && OnlyGoroutines(acts) && !CrSettled(s)
    ensures NeverSettled(s, acts)
    decreases |acts|
  {
    if acts != [] {
      assert acts[0].Goroutine? && forall i | 0 <= i < |acts[1..]| :: acts[1..][i] == acts[i + 1];
      GoroutinesKeepCr(Apply(s, acts[0]), acts[1..]);
    }
  }

  /** With the watcher running, the lock free and no check pending, a goroutine can come to its check on
      its own exactly when both sides are standby and done. */
  lemma CheckExactlyWhenSettled(s: State, id: Id)
    requires s.running && s.lock.None? && id in s.watchers && NonePending(s)
    ensures (exists acts :: LeadsToCheck(s, id, acts)) <==> CrSettled(s)
  {
    if CrSettled(s) {
      var acts := SettledLeadsToCheck(s, id);
    } else {
      forall acts | Legal(s, acts) && OnlyGoroutines(acts)
        ensures !LeadsToCheck(s, id, acts)
      {
        GoroutinesKeepCr(s, acts);
        UnsettledNeverChecks(s, acts);
      }
    }
  }

  // ----- Restarts on a fresh read -----

  /** The goroutine has a pending check whose CR read precedes the end of a switchover section,
      counting the section that is about to be left. */
  predicate LeftBehind(s: State, w: Watcher) {
    Pending(w) && (Outdated(s, w) || InSection(s.configure))
  }

  ghost predicate LeftOver(s: State) {
    exists id <- s.watchers :: LeftBehind(s, s.watchers[id])
  }

  /** A goroutine is restarting the replication on the strength of an outdated CR read. */
  ghost predicate OutdatedRestart(s: State) {
    exists id <- s.watchers :: s.watchers[id].Restarting? && Outdated(s, s.watchers[id])
  }

  predicate FreshWatcher(s: State, w: Watcher) {
    && (s.running ==> !LeftBehind(s, w))
    && (w.Restarting? ==> !Outdated(s, w))
  }

  ghost predicate ReadsFresh(s: State) {
    forall id <- s.watchers :: FreshWatcher(s, s.watchers[id])
  }

  lemma MainKeepsFreshWatcher(s: State, m: MainStep, id: Id, w: Watcher)
    requires SwitchInv(s) && LockAgrees(s, id, w) && FreshWatcher(s, w) && MainEnabled(s, m)
    requires m.Start? ==> !LeftBehind(s, w)
    ensures FreshWatcher(ApplyMain(s, m), w)
  {
  }

  lemma MainKeepsFresh(s: State, m: MainStep)
    requires Inv(s) && ReadsFresh(s) && MainEnabled(s, m) && (m.Start? && !s.running ==> !LeftOver(s))
    ensures ReadsFresh(ApplyMain(s, m))
  {
    var t := ApplyMain(s, m);
    forall id <- t.watchers ensures FreshWatcher(t, t.watchers[id]) {
      if id in s.watchers {
        assert FreshWatcher(s, s.watchers[id]) && LockAgrees(s, id, s.watchers[id]);
        MainKeepsFreshWatcher(s, m, id, s.watchers[id]);
      }
    }
  }

  lemma MoveKeepsFresh(s: State, id: Id, move: WatcherStep)
    requires Inv(s) && ReadsFresh(s) && id in s.watchers && MoveEnabled(s, s.watchers[id], move)
    ensures ReadsFresh(ApplyMove(s, id, move))
  {
    assert FreshWatcher(s, s.watchers[id]);
  }

  lemma StepKeepsFresh(s: State, a: Action)
    requires Inv(s) && ReadsFresh(s) && Enabled(s, a) && (IsStart(a) && !s.running ==> !LeftOver(s))
    ensures ReadsFresh(Apply(s, a))
  {
    match a
    case Main(m) => MainKeepsFresh(s, m);
    case Goroutine(id, move) => MoveKeepsFresh(s, id, move);
  }

  /** Every `start` of the run that wakes the paused watcher up finds no leftover check. */
  ghost predicate Disciplined(s: State, acts: seq<Action>)
    requires Legal(s, acts)
    decreases |acts|
  {
    acts == [] ||
    ((IsStart(acts[0]) && !s.running ==> !LeftOver(s)) && Disciplined(Apply(s, acts[0]), acts[1..]))
  }

  lemma {:induction false} RunKeepsFresh(s: State, acts: seq<Action>)
    requires Inv(s) && ReadsFresh(s) && Legal(s, acts) && Disciplined(s, acts)
    ensures Inv(Run(s, acts)) && ReadsFresh(Run(s, acts))
    decreases |acts|
  {
    if acts != [] {
      StepKeepsInv(s, acts[0]);
      StepKeepsFresh(s, acts[0]);
      RunKeepsFresh(Apply(s, acts[0]), acts[1..]);
    }
  }

  /** In a disciplined run no section ran between the CR read behind a restart and that restart, and
      at the moment the goroutine decides to restart the CR still records a settled standby side. */
  lemma DisciplinedRestartsAreFresh(start: State, acts: seq<Action>)
    requires Initial(start) && Legal(start, acts) && Disciplined(start, acts)
    ensures var s := Run(start, acts);
            && !OutdatedRestart(s)
            && (s.running ==> forall id <- s.watchers :: s.watchers[id].TestingState? ==> StandbySettled(s))
  {
    RunKeepsFresh(start, acts);
    var s := Run(start, acts);
    forall id <- s.watchers | s.running && s.watchers[id].TestingState? ensures StandbySettled(s) {
      assert FreshWatcher(s, s.watchers[id]) && CrAgrees(s, s.watchers[id]) && LockAgrees(s, id, s.watchers[id]);
    }
  }

  /** The lock held by a goroutine can always be freed while another one waits, whether the watcher is
      running or paused. */
  lemma LockDrains(s: State, id: Id) returns (acts: seq<Action>)
    requires Inv(s) && id in s.watchers && s.watchers[id].AwaitingLock?
    requires s.lock.Some? && s.lock.value.ByWatcher?
    ensures Legal(s, acts) && NoStart(acts)
    ensures var t := Run(s, acts);
            && t.lock.None? && t.running == s.running && t.stamp == s.stamp
            && id in t.watchers && t.watchers[id] == s.watchers[id]
  {
    var j := s.lock.value.id;
    assert LockAgrees(s, j, s.watchers[j]) && LockAgrees(s, id, s.watchers[id]);
    if s.watchers[j].Checking? {
      acts := [Goroutine(j, Check(true))];
      RunThen(s, [], acts[0]);
    } else {
      acts := [];
      if s.watchers[j].TestingState? {
        RunThen(s, acts, Goroutine(j, TestState));
        acts := acts + [Goroutine(j, TestState)];
      }
      if Run(s, acts).watchers[j].Restarting? {
        RunThen(s, acts, Goroutine(j, FinishRestart));
        acts := acts + [Goroutine(j, FinishRestart)];
      }
    }
  }

  /** From a running state with a free lock, a waiting goroutine can go on to restart. */
  lemma WaitingCanRestart(s: State, id: Id) returns (acts: seq<Action>)
    requires s.running && s.lock.None? && id in s.watchers && s.watchers[id].AwaitingLock?
    ensures Legal(s, acts) && NoStart(acts)
    ensures var t := Run(s, acts);
            t.stamp == s.stamp && id in t.watchers && t.watchers[id] == Restarting(s.watchers[id].readAt)
  {
    acts := [];
    RunThen(s, acts, Goroutine(id, TakeLock));
    acts := acts + [Goroutine(id, TakeLock)];
    RunThen(s, acts, Goroutine(id, Check(false)));
    acts := acts + [Goroutine(id, Check(false))];
    RunThen(s, acts, Goroutine(id, TestState));
    acts := acts + [Goroutine(id, TestState)];
  }

  /** One more step at the end of a run. */
  lemma {:induction false} RunThen(s: State, acts: seq<Action>, a: Action)
    requires Legal(s, acts) && Enabled(Run(s, acts), a)
    ensures Legal(s, acts + [a]) && Run(s, acts + [a]) == Apply(Run(s, acts), a)
    decreases |acts|
  {
    if acts == [] {
      var t := Apply(s, a);
      assert Legal(t, []) && Run(t, []) == t && (acts + [a])[1..] == [];
    } else {
      assert (acts + [a])[1..] == acts[1..] + [a];
      RunThen(Apply(s, acts[0]), acts[1..], a);
    }
  }

  lemma {:induction false} RunAppend(s: State, acts: seq<Action>, more: seq<Action>)
    requires Legal(s, acts) && Legal(Run(s, acts), more)
    ensures Legal(s, acts + more) && Run(s, acts + more) == Run(Run(s, acts), more)
    decreases |acts|
  {
    if acts == [] {
      assert acts + more == more;
    } else {
      assert (acts + more)[1..] == acts[1..] + more;
      RunAppend(Apply(s, acts[0]), acts[1..], more);
    }
  }

  /** A continuation without another `start` in which a restart rests on an outdated read. */
  ghost predicate LeadsToOutdatedRestart(s: State, acts: seq<Action>) {
    Legal(s, acts) && NoStart(acts) && OutdatedRestart(Run(s, acts))
  }

  lemma {:induction false} NoStartIsDisciplined(s: State, acts: seq<Action>)
    requires Legal(s, acts) && NoStart(acts)
    ensures Disciplined(s, acts)
    decreases |acts|
  {
    if acts != [] {
      assert !IsStart(acts[0]);
      NoStartIsDisciplined(Apply(s, acts[0]), acts[1..]);
    }
  }

  /** The discipline is exact. After a `start` that wakes the watcher up, an outdated restart can
      follow if and only if some goroutine was left behind when `start` was called. */
  lemma OutdatedRestartExactlyWhenLeftOver(s: State, newId: Id)
    requires Inv(s) && ReadsFresh(s) && !s.running && MainEnabled(s, Start(newId))
    ensures (exists acts :: LeadsToOutdatedRestart(ApplyMain(s, Start(newId)), acts)) <==> LeftOver(s)
  {
    var t := ApplyMain(s, Start(newId));
    StepKeepsInv(s, Main(Start(newId)));
    if LeftOver(s) {
      var id :| id in s.watchers && LeftBehind(s, s.watchers[id]);
      var acts := LeftBehindRestarts(t, id);
      assert LeadsToOutdatedRestart(t, acts);
    } else {
      StepKeepsFresh(s, Main(Start(newId)));
      forall acts | Legal(t, acts) && NoStart(acts) ensures !OutdatedRestart(Run(t, acts)) {
        NoStartIsDisciplined(t, acts);
        RunKeepsFresh(t, acts);
      }
    }
  }

  lemma LeftBehindRestarts(t: State, id: Id) returns (acts: seq<Action>)
    requires Inv(t) && t.running && t.configure.Releasing?
    requires id in t.watchers && LeftBehind(t, t.watchers[id]) && !t.watchers[id].Restarting?
    ensures Legal(t, acts) && NoStart(acts) && OutdatedRestart(Run(t, acts))
  {
    acts := [];
    var w := t.watchers[id];
    assert LockAgrees(t, id, w) && CrAgrees(t, w);
    if HoldsLock(w) {
      if w.Checking? {
        RunThen(t, acts, Goroutine(id, Check(false)));
        acts := acts + [Goroutine(id, Check(false))];
      }
      RunThen(t, acts, Goroutine(id, TestState));
      acts := acts + [Goroutine(id, TestState)];
      assert Outdated(Run(t, acts), Run(t, acts).watchers[id]);
    } else {
      if InSection(t.configure) {
        RunThen(t, acts, Main(Release));
        acts := [Main(Release)];
      } else if t.lock.Some? {
        acts := LockDrains(t, id);
      }
      var more := WaitingCanRestart(Run(t, acts), id);
      RunAppend(t, acts, more);
      acts := acts + more;
      assert Outdated(Run(t, acts), Run(t, acts).watchers[id]);
    }
  }

  lemma WaitingIsReachable() returns (acts: seq<Action>)
    ensures var start := Init(true, true, Done);
            && Legal(start, acts) && Disciplined(start, acts)
            && Run(start, acts) == State(true, None, map[0 := AwaitingLock(0)], Idle, true, true, Done, 0)
  {
    var start := Init(true, true, Done);
    acts := [];
    Extend(start, acts, Main(Begin(false)));
    acts := acts + [Main(Begin(false))];
    Extend(start, acts, Main(Start(0)));
    acts := acts + [Main(Start(0))];
    Extend(start, acts, Main(Release));
    acts := acts + [Main(Release)];
    Extend(start, acts, Main(Record(true)));
    acts := acts + [Main(Record(true))];
    Extend(start, acts, Goroutine(0, TestTop));
    acts := acts + [Goroutine(0, TestTop)];
    Extend(start, acts, Goroutine(0, ReadCr(true)));
    acts := acts + [Goroutine(0, ReadCr(true))];
  }

  /** The leftover situation is reachable: a goroutine waits for the lock while a switchover with the
      watcher enabled runs and calls `start` again. */
  lemma LeftOverIsReachable() returns (acts: seq<Action>)
    ensures var start := Init(true, true, Done);
            && Legal(start, acts) && Disciplined(start, acts)
            && MainEnabled(Run(start, acts), Start(1)) && !Run(start, acts).running
            && LeftOver(Run(start, acts))
  {
    var start := Init(true, true, Done);
    acts := WaitingIsReachable();
    Extend(start, acts, Main(Begin(true)));
    acts := acts + [Main(Begin(true))];
    Extend(start, acts, Main(Pause));
    acts := acts + [Main(Pause)];
    Extend(start, acts, Main(LockForSwitch));
    acts := acts + [Main(LockForSwitch)];
    Extend(start, acts, Main(WriteRunning(true, true)));
    acts := acts + [Main(WriteRunning(true, true))];
    Extend(start, acts, Main(FinishSwitch(false)));
    acts := acts + [Main(FinishSwitch(false))];
    assert 0 in Run(start, acts).watchers;
  }

  lemma {:induction false} Extend(s: State, acts: seq<Action>, a: Action)
    requires Legal(s, acts) && Disciplined(s, acts) && Enabled(Run(s, acts), a)
    requires IsStart(a) && !Run(s, acts).running ==> Run(s, acts).watchers == map[]
    ensures Legal(s, acts + [a]) && Disciplined(s, acts + [a]) && Run(s, acts + [a]) == Apply(Run(s, acts), a)
    decreases |acts|
  {
    if acts == [] {
      var t := Apply(s, a);
      assert Legal(t, []) && Run(t, []) == t && (acts + [a])[1..] == [];
    } else {
      assert (acts + [a])[1..] == acts[1..] + [a];
      Extend(Apply(s, acts[0]), acts[1..], a);
    }
  }
}
