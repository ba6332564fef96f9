/** The slow-log indices watcher: the reconciler's `start` and `stop` against any number of watcher
    goroutines that share one `State` string and one mutex.

    The reconciler runs one call at a time, as the controller has a single worker. Every settings
    request may succeed or fail; a successful one takes effect before it returns. */
module SlowLogWatcher {
  import opened Basics

  type Id = nat
  type Settings = nat   // an indices pattern with its threshold

  /** Where a goroutine of `watch` stands. From `AtTest` on it holds the mutex. */
  datatype Phase = AwaitingLock | AtTest | Adding | Sleeping
  datatype Watcher = Watcher(settings: Settings, phase: Phase)

  /** Where the reconciler stands inside `start` (with its arguments) or `stop` (without). */
  datatype Main =
    | Idle
    | TestingState(args: Option<Settings>)
    | AwaitingRemoval(args: Option<Settings>)
    | Removing(args: Option<Settings>)
    | AfterStop(args: Option<Settings>)
    | Spawning(settings: Settings)

  datatype Holder = ByMain | ByWatcher(id: Id)

  datatype State = State(
    running: bool,                 // `State` is "running" rather than "stopped"
    mutex: Option<Holder>,
    watchers: map<Id, Watcher>,
    main: Main,
    requested: Option<Settings>,   // the arguments of the last `start` that set the state to running
    applied: set<Settings>)        // the thresholds put on the cluster and not cleared since

  datatype Action =
    | CallStart(settings: Settings)
    | CallStop
    | TestState
    | LockForRemoval
    | Remove(ok: bool)
    | SetRunning
    | Spawn(id: Id)
    | Return
    | TakeLock(id: Id)
    | TestLoop(id: Id)
    | Add(id: Id, ok: bool)
    | Wake(id: Id)

  function Init(): State {
    State(false, None, map[], Idle, None, {})
  }

  predicate At(s: State, id: Id, phase: Phase) {
    id in s.watchers && s.watchers[id].phase == phase
  }

  predicate Enabled(s: State, a: Action) {
    match a
    case CallStart(_) => s.main.Idle?
    case CallStop => s.main.Idle?
    case TestState => s.main.TestingState?
    case LockForRemoval => s.main.AwaitingRemoval? && s.mutex.None?
    case Remove(_) => s.main.Removing?
    case SetRunning => s.main.AfterStop? && s.main.args.Some?
    case Return => s.main.AfterStop? && s.main.args.None?
    case Spawn(id) => s.main.Spawning? && id !in s.watchers
    case TakeLock(id) => At(s, id, AwaitingLock) && s.mutex.None?
    case TestLoop(id) => At(s, id, AtTest)
    case Add(id, _) => At(s, id, Adding)
    case Wake(id) => At(s, id, Sleeping)
  }

  function MoveTo(s: State, id: Id, phase: Phase): State
    requires id in s.watchers
  {
    s.(watchers := s.watchers[id := s.watchers[id].(phase := phase)])
  }

  function Apply(s: State, a: Action): State
    requires Enabled(s, a)
  {
    match a
    case CallStart(settings) => s.(main := TestingState(Some(settings)))
    case CallStop => s.(main := TestingState(None))
    case TestState =>
      if s.running then s.(running := false, main := AwaitingRemoval(s.main.args))
      else s.(main := AfterStop(s.main.args))
    case LockForRemoval => s.(mutex := Some(ByMain), main := Removing(s.main.args))
    case Remove(ok) =>
      s.(mutex := None, main := AfterStop(s.main.args), applied := if ok then {} else s.applied)
    case SetRunning =>
      var settings := s.main.args.value;
      s.(running := true, main := Spawning(settings), requested := Some(settings))
    case Return => s.(main := Idle)
    case Spawn(id) =>
      s.(main := Idle, watchers := s.watchers[id := Watcher(s.main.settings, AwaitingLock)])
    case TakeLock(id) => MoveTo(s, id, AtTest).(mutex := Some(ByWatcher(id)))
    case TestLoop(id) =>
      if s.running then MoveTo(s, id, Adding)
      else s.(mutex := None, watchers := s.watchers - {id})
    case Add(id, ok) =>
      MoveTo(s, id, Sleeping).(applied := if ok then s.applied + {s.watchers[id].settings} else s.applied)
    case Wake(id) => MoveTo(s, id, AtTest)
  }

  predicate Legal(s: State, acts: seq<Action>)
    decreases |acts|
  {
    acts == [] || (Enabled(s, acts[0]) && Legal(Apply(s, acts[0]), acts[1..]))
  }

  function Run(s: State, acts: seq<Action>): State
    requires Legal(s, acts)
    decreases |acts|
  {
    if acts == [] then s else Run(Apply(s, acts[0]), acts[1..])
  }

  // ----- What is applied -----

  predicate NoClear(acts: seq<Action>) {
    forall i | 0 <= i < |acts| :: acts[i] != Remove(true)
  }

  /** A goroutine with these settings adds them successfully, and nothing clears them afterwards. */
  predicate StaysAdded(s: State, acts: seq<Action>, x: Settings)
    requires Legal(s, acts)
    decreases |acts|
  {
    acts != [] &&
    (|| (acts[0].Add? && acts[0].ok && s.watchers[acts[0].id].settings == x && NoClear(acts[1..]))
     || StaysAdded(Apply(s, acts[0]), acts[1..], x))
  }

  /** Settings are on the cluster exactly when they were and nothing cleared them, or a goroutine with those
      settings added them and nothing cleared them since; requests that failed change nothing. */
  lemma {:induction false} AppliedExactly(s: State, acts: seq<Action>, x: Settings)
    requires Legal(s, acts)
    ensures x in Run(s, acts).applied <==> (x in s.applied && NoClear(acts)) || StaysAdded(s, acts, x)
    decreases |acts|
  {
    if acts != [] {
      assert NoClear(acts) <==> acts[0] != Remove(true) && NoClear(acts[1..]) by {
        assert forall i | 0 < i < |acts| :: acts[i] == acts[1..][i - 1];
      }
      AppliedExactly(Apply(s, acts[0]), acts[1..], x);
    }
  }

  predicate InLoop(w: Watcher) {
    !w.phase.AwaitingLock?
  }

  ghost predicate Inv(s: State) {
    && (forall id <- s.watchers :: InLoop(s.watchers[id]) <==> s.mutex == Some(ByWatcher(id)))
    && (s.mutex.Some? && s.mutex.value.ByWatcher? ==> s.mutex.value.id in s.watchers)
    && (s.mutex == Some(ByMain) <==> s.main.Removing?)
    && (s.main.AwaitingRemoval? || s.main.Removing? || s.main.AfterStop? ==> !s.running)
    && (s.main.Spawning? ==> s.running && s.requested == Some(s.main.settings))
    // Stopped and not waiting for the lock: nobody is past the test of the loop.
    && (!s.running && !s.main.AwaitingRemoval? ==> Quiet(s))
  }

  /** No goroutine is about to send the add request. */
  ghost predicate Quiet(s: State) {
    forall id <- s.watchers :: !s.watchers[id].phase.Adding?
  }

  lemma StepKeepsInv(s: State, a: Action)
    requires Inv(s) && Enabled(s, a)
    ensures Inv(Apply(s, a))
  {
  }

  lemma {:induction false} RunKeepsInv(s: State, acts: seq<Action>)
    requires Inv(s) && Legal(s, acts)
    ensures Inv(Run(s, acts))
    decreases |acts|
  {
    if acts != [] {
      StepKeepsInv(s, acts[0]);
      RunKeepsInv(Apply(s, acts[0]), acts[1..]);
    }
  }

  /** In every interleaving at most one goroutine is inside the loop. */
  lemma AtMostOneInLoop(acts: seq<Action>, i: Id, j: Id)
    requires Legal(Init(), acts)
    requires var s := Run(Init(), acts);
             i in s.watchers && j in s.watchers && InLoop(s.watchers[i]) && InLoop(s.watchers[j])
    ensures i == j
  {
    RunKeepsInv(Init(), acts);
  }

  // ----- What stop guarantees -----

  /** No `start` sets the state to running within `acts`. */
  predicate NoRestart(acts: seq<Action>) {
    forall i | 0 <= i < |acts| :: !acts[i].SetRunning?
  }

  predicate NoAdd(acts: seq<Action>) {
    forall i | 0 <= i < |acts| :: !acts[i].Add?
  }

  lemma {:induction false} StoppedStaysQuiet(s: State, acts: seq<Action>)
    requires Inv(s) && !s.running && !s.main.AwaitingRemoval?
    requires Legal(s, acts) && NoRestart(acts)
    ensures NoAdd(acts) && Run(s, acts).applied <= s.applied
    decreases |acts|
  {
    if acts != [] {
      assert acts[0] in acts;
      StepKeepsInv(s, acts[0]);
      StoppedStaysQuiet(Apply(s, acts[0]), acts[1..]);
    }
  }

  /** Once `stop` has returned, whether or not it had anything to stop and whatever goroutines are
      still waiting for the lock, no add request is sent until a later `start` sets the state. */
  lemma NoAddAfterStopReturns(before: seq<Action>, after: seq<Action>)
    requires Legal(Init(), before) && Enabled(Run(Init(), before), Return)
    requires Legal(Apply(Run(Init(), before), Return), after) && NoRestart(after)
    ensures NoAdd(after)
  {
    RunKeepsInv(Init(), before);
    var s := Run(Init(), before);
    StepKeepsInv(s, Return);
    StoppedStaysQuiet(Apply(s, Return), after);
  }

  /** A successful clear stays clear until the next start. */
  lemma ClearStaysClear(before: seq<Action>, after: seq<Action>)
    requires Legal(Init(), before) && Enabled(Run(Init(), before), Remove(true))
    requires Legal(Apply(Run(Init(), before), Remove(true)), after) && NoRestart(after)
    ensures Run(Apply(Run(Init(), before), Remove(true)), after).applied == {}
  {
    RunKeepsInv(Init(), before);
    var s := Run(Init(), before);
    StepKeepsInv(s, Remove(true));
    StoppedStaysQuiet(Apply(s, Remove(true)), after);
  }

  /** A goroutine that holds the mutex of a stopped watcher lets go of it: it finishes its request and its sleep
      and leaves the loop. */
  lemma LetsGo(s: State, id: Id) returns (acts: seq<Action>)
    requires Inv(s) && !s.running && s.mutex == Some(ByWatcher(id))
    ensures Legal(s, acts) && NoRestart(acts)
    ensures var t := Run(s, acts); t.mutex.None? && t.main == s.main && !t.running && id !in t.watchers
  {
    acts := [];
    var t := s;
    if t.watchers[id].phase.Adding? {
      RunThen(s, acts, Add(id, true));
      acts, t := acts + [Add(id, true)], Apply(t, Add(id, true));
    }
    if t.watchers[id].phase.Sleeping? {
      RunThen(s, acts, Wake(id));
      acts, t := acts + [Wake(id)], Apply(t, Wake(id));
    }
    RunThen(s, acts, TestLoop(id));
    acts := acts + [TestLoop(id)];
  }

  lemma {:induction false} RunAppend(s: State, acts: seq<Action>, more: seq<Action>)
    requires Legal(s, acts) && Legal(Run(s, acts), more)
    ensures Legal(s, acts + more) && Run(s, acts + more) == Run(Run(s, acts), more)
    decreases |acts|
  {
    if acts == [] {
      assert acts + more == more;
    } else {
      assert (acts + more)[0] == acts[0] && (acts + more)[1..] == acts[1..] + more;
      RunAppend(Apply(s, acts[0]), acts[1..], more);
    }
  }

  /** The steps of `stop` up to where it waits for the mutex. */
  lemma StopBegins(s: State)
    requires s.main.Idle? && s.running
    ensures var acts := [CallStop, TestState];
            Legal(s, acts) && Run(s, acts) == s.(running := false, main := AwaitingRemoval(None))
  {
    RunThen(s, [], CallStop);
    RunThen(s, [] + [CallStop], TestState);
    assert [] + [CallStop] + [TestState] == [CallStop, TestState];
  }

  lemma StopEnds(s: State)
    requires s.main == AwaitingRemoval(None) && s.mutex.None?
    ensures var acts := [LockForRemoval, Remove(true), Return];
            Legal(s, acts) && Run(s, acts) == s.(main := Idle, applied := {})
  {
    RunThen(s, [], LockForRemoval);
    RunThen(s, [] + [LockForRemoval], Remove(true));
    RunThen(s, [] + [LockForRemoval] + [Remove(true)], Return);
    assert [] + [LockForRemoval] + [Remove(true)] + [Return] == [LockForRemoval, Remove(true), Return];
  }

  /** `stop` can always come to its return, with the settings cleared: the goroutine that holds the mutex it
      waits for lets go of it. */
  lemma StopCanReturn(s: State) returns (acts: seq<Action>)
    requires Inv(s) && s.main.Idle? && s.running
    ensures Legal(s, acts) && acts != [] && acts[0] == CallStop && NoRestart(acts)
    ensures var t := Run(s, acts); t.main.Idle? && !t.running && t.applied == {}
  {
    acts := [CallStop, TestState];
    StopBegins(s);
    RunKeepsInv(s, acts);
    if s.mutex.Some? {
      var more := LetsGo(Run(s, acts), s.mutex.value.id);
      RunAppend(s, acts, more);
      acts := acts + more;
    }
    StopEnds(Run(s, acts));
    RunAppend(s, acts, [LockForRemoval, Remove(true), Return]);
    acts := acts + [LockForRemoval, Remove(true), Return];
  }

  // ----- Whose settings the loop applies -----

  predicate Current(s: State, id: Id, settings: Settings)
    requires id in s.watchers
  {
    s.watchers[id].settings == settings
  }

  /** The goroutine that holds the lock, or when it is free every goroutine that could take it,
      was started with `settings`. */
  ghost predicate ContendersCurrent(s: State, settings: Settings) {
    match s.mutex
    case Some(ByWatcher(id)) => id in s.watchers && Current(s, id, settings)
    case Some(ByMain) => true
    case None => forall id <- s.watchers :: Current(s, id, settings)
  }

  /** After `acts` some goroutine is about to add settings other than those last requested. */
  ghost predicate AddsStale(s: State, acts: seq<Action>) {
    && Legal(s, acts) && NoRestart(acts)
    && var t := Run(s, acts);
       exists id <- t.watchers :: t.watchers[id].phase.Adding? && Some(t.watchers[id].settings) != t.requested
  }

  ghost predicate AddersCurrent(s: State) {
    && s.requested.Some?
    && (s.running ==> ContendersCurrent(s, s.requested.value))
    && (forall id <- s.watchers :: s.watchers[id].phase.Adding? ==> Current(s, id, s.requested.value))
  }

  lemma {:induction false} AddersStayCurrent(s: State, acts: seq<Action>)
    requires Inv(s) && AddersCurrent(s) && Legal(s, acts) && NoRestart(acts)
    ensures AddersCurrent(Run(s, acts))
    decreases |acts|
  {
    if acts != [] {
      assert acts[0] in acts;
      StepKeepsInv(s, acts[0]);
      AddersStayCurrent(Apply(s, acts[0]), acts[1..]);
    }
  }

  /** One more step at the end of a run. */
  lemma {:induction false} RunThen(s: State, acts: seq<Action>, a: Action)
    requires Legal(s, acts) && Enabled(Run(s, acts), a)
    ensures Legal(s, acts + [a]) && Run(s, acts + [a]) == Apply(Run(s, acts), a)
    decreases |acts|
  {
    if acts == [] {
      var t := Apply(s, a);
      assert Legal(t, []) && Run(t, []) == t && (acts + [a])[1..] == [];
    } else {
      assert (acts + [a])[1..] == acts[1..] + [a];
      RunThen(Apply(s, acts[0]), acts[1..], a);
    }
  }

  /** A goroutine left over from an earlier `start` and still waiting for the lock wakes up into the
      new running state and adds its own old settings. That can happen after a `start` exactly when,
      at the moment the state is set to running, the lock holder or a contender for the free lock
      carries other settings than the new ones. */
  lemma StaleSettingsExactlyWhenLeftOver(s: State)
    requires Inv(s) && Enabled(s, SetRunning)
    ensures (exists acts :: AddsStale(Apply(s, SetRunning), acts)) <==>
            !ContendersCurrent(s, s.main.args.value)
  {
    var t := Apply(s, SetRunning);
    StepKeepsInv(s, SetRunning);
    if ContendersCurrent(s, s.main.args.value) {
      forall acts | AddsStale(t, acts) ensures false {
        AddersStayCurrent(t, acts);
      }
    } else {
      var id: Id;
      var acts: seq<Action> := [];
      if s.mutex.Some? {
        id := s.mutex.value.id;
        if s.watchers[id].phase.Sleeping? {
          RunThen(t, acts, Wake(id));
          acts := acts + [Wake(id)];
        }
      } else {
        id :| id in s.watchers && !Current(s, id, s.main.args.value);
        RunThen(t, acts, TakeLock(id));
        acts := acts + [TakeLock(id)];
      }
      RunThen(t, acts, TestLoop(id));
      acts := acts + [TestLoop(id)];
      assert id in Run(t, acts).watchers;
      assert AddsStale(t, acts);
    }
  }

  /** The leftover situation is reachable: two starts before the first goroutine got the lock. */
  lemma LeftOverIsReachable() returns (acts: seq<Action>)
    ensures Legal(Init(), acts) && Enabled(Run(Init(), acts), SetRunning)
    ensures !ContendersCurrent(Run(Init(), acts), Run(Init(), acts).main.args.value)
  {
    acts := [];
    RunThen(Init(), acts, CallStart(1));
    acts := acts + [CallStart(1)];
    RunThen(Init(), acts, TestState);
    acts := acts + [TestState];
    RunThen(Init(), acts, SetRunning);
    acts := acts + [SetRunning];
    RunThen(Init(), acts, Spawn(7));
    acts := acts + [Spawn(7)];
    RunThen(Init(), acts, CallStart(2));
    acts := acts + [CallStart(2)];
    RunThen(Init(), acts, TestState);
    acts := acts + [TestState];
    RunThen(Init(), acts, LockForRemoval);
    acts := acts + [LockForRemoval];
    RunThen(Init(), acts, Remove(true));
    acts := acts + [Remove(true)];
    assert 7 in Run(Init(), acts).watchers;
  }
}
