/** The adapter's single-worker executor: callers of `Submit` and `Shutdown`, one mutex, one channel
    of capacity five and one worker goroutine, interleaved step by step.

    A step is one access to the mutex, to `active` or to the channel. A blocked operation is a step
    that is not enabled. Sending on a closed channel and closing it twice are Go panics; the model
    records them in `panicked` instead of forbidding them. */
module BackgroundExecutor {
  import opened Basics

  type Task = nat
  type Caller = nat

  const CAPACITY := 5

  /** Where a call of `Submit` or `Shutdown` stands. */
  datatype CallerPc =
    | SubmitEntered(work: Task)
    | SubmitLocked(work: Task)
    | SubmitSending(work: Task)
    | ShutdownEntered
    | ShutdownLocked
    | ShutdownClosing
    | Leaving

  datatype Worker = Receiving | Working(work: Task) | Exited

  datatype Executor = Executor(
    queue: seq<Task>,
    closed: bool,
    active: bool,
    mutex: Option<Caller>,
    callers: map<Caller, CallerPc>,
    worker: Worker,
    panicked: bool,
    accepted: seq<Task>,   // every task put on the channel, in order
    executed: seq<Task>)   // every task the worker has finished, in order

  datatype Action =
    | CallSubmit(c: Caller, work: Task)
    | CallShutdown(c: Caller)
    | Lock(c: Caller)
    | TestActive(c: Caller)
    | Send(c: Caller)
    | Close(c: Caller)
    | Unlock(c: Caller)
    | Receive
    | FinishWork

  /** What `NewBackgroundExecutor` returns: an open channel and a worker waiting on it. */
  function New(): Executor {
    Executor([], false, true, None, map[], Receiving, false, [], [])
  }

  /** The zero value of the struct: inactive, no channel, no worker. */
  function ZeroValue(): Executor {
    Executor([], false, false, None, map[], Exited, false, [], [])
  }

  predicate Enabled(s: Executor, a: Action) {
    && !s.panicked
    && match a
       case CallSubmit(c, _) => c !in s.callers
       case CallShutdown(c) => c !in s.callers
       case Lock(c) =>
         c in s.callers && (s.callers[c].SubmitEntered? || s.callers[c].ShutdownEntered?) && s.mutex.None?
       case TestActive(c) => c in s.callers && (s.callers[c].SubmitLocked? || s.callers[c].ShutdownLocked?)
       case Send(c) => c in s.callers && s.callers[c].SubmitSending? && (s.closed || |s.queue| < CAPACITY)
       case Close(c) => c in s.callers && s.callers[c].ShutdownClosing?
       case Unlock(c) => c in s.callers && s.callers[c].Leaving?
       case Receive => s.worker.Receiving? && (s.queue != [] || s.closed)
       case FinishWork => s.worker.Working?
  }

  function Apply(s: Executor, a: Action): Executor
    requires Enabled(s, a)
  {
    match a
    case CallSubmit(c, work) => s.(callers := s.callers[c := SubmitEntered(work)])
    case CallShutdown(c) => s.(callers := s.callers[c := ShutdownEntered])
    case Lock(c) =>
      s.(mutex := Some(c), callers := s.callers[c :=
        match s.callers[c]
        case SubmitEntered(work) => SubmitLocked(work)
        case _ => ShutdownLocked])
    case TestActive(c) =>
      if !s.active then s.(callers := s.callers[c := Leaving])
      else (match s.callers[c]
            case SubmitLocked(work) => s.(callers := s.callers[c := SubmitSending(work)])
            case _ => s.(active := false, callers := s.callers[c := ShutdownClosing]))
    case Send(c) =>
      if s.closed then s.(panicked := true)
      else
        var work := s.callers[c].work;
        s.(queue := s.queue + [work], accepted := s.accepted + [work], callers := s.callers[c := Leaving])
    case Close(c) =>
      if s.closed then s.(panicked := true)
      else s.(closed := true, callers := s.callers[c := Leaving])
    case Unlock(c) => s.(mutex := None, callers := s.callers - {c})
    case Receive =>
      if s.queue != [] then s.(queue := s.queue[1..], worker := Working(s.queue[0]))
      else s.(worker := Exited)
    case FinishWork => s.(executed := s.executed + [s.worker.work], worker := Receiving)
  }

  /** `acts` can be taken one after the other from `s`. */
  predicate Legal(s: Executor, acts: seq<Action>)
    decreases |acts|
  {
    acts == [] || (Enabled(s, acts[0]) && Legal(Apply(s, acts[0]), acts[1..]))
  }

  function Run(s: Executor, acts: seq<Action>): Executor
    requires Legal(s, acts)
    decreases |acts|
  {
    if acts == [] then s else Run(Apply(s, acts[0]), acts[1..])
  }

  function InHand(s: Executor): seq<Task> {
    if s.worker.Working? then [s.worker.work] else []
  }

  /** The caller is between its lock and its deferred unlock. */
  predicate Inside(pc: CallerPc) {
    !pc.SubmitEntered? && !pc.ShutdownEntered?
  }

  /** What was accepted is finished, in hand or queued, in this order. */
  predicate QueueInv(s: Executor) {
    && s.accepted == s.executed + InHand(s) + s.queue
    && |s.queue| <= CAPACITY
    && (s.worker.Exited? ==> s.closed && s.queue == [])
  }

  /** The mutex, the callers and the two flags agree. */
  predicate LockInv(s: Executor) {
    && !s.panicked
    && (s.closed ==> !s.active)
    && (forall c <- s.callers :: Inside(s.callers[c]) <==> s.mutex == Some(c))
    && (s.mutex.Some? ==> s.mutex.value in s.callers)
    && (forall c <- s.callers :: s.callers[c].SubmitSending? ==> s.active)
    && (!s.active && !s.closed <==> s.mutex.Some? && s.callers[s.mutex.value].ShutdownClosing?)
  }

  predicate Inv(s: Executor) {
    QueueInv(s) && LockInv(s)
  }

  lemma StepKeepsQueueInv(s: Executor, a: Action)
    requires Inv(s) && Enabled(s, a)
    ensures QueueInv(Apply(s, a))
  {
  }

  lemma StepKeepsLockInv(s: Executor, a: Action)
    requires LockInv(s) && Enabled(s, a)
    ensures LockInv(Apply(s, a))
  {
  }

  lemma StepKeepsInv(s: Executor, a: Action)
    requires Inv(s) && Enabled(s, a)
    ensures Inv(Apply(s, a))
  {
    StepKeepsQueueInv(s, a);
    StepKeepsLockInv(s, a);
  }

  lemma {:induction false} RunKeepsInv(s: Executor, acts: seq<Action>)
    requires Inv(s) && Legal(s, acts)
    ensures Inv(Run(s, acts))
    decreases |acts|
  {
    if acts != [] {
      StepKeepsInv(s, acts[0]);
      RunKeepsInv(Apply(s, acts[0]), acts[1..]);
    }
  }

  /** Safety over every run of a constructed executor: no panic, never more than five queued tasks,
      tasks finish in the order they were accepted, and a worker that left finished all of them. */
  lemma Safety(acts: seq<Action>)
    requires Legal(New(), acts)
    ensures var s := Run(New(), acts);
            && !s.panicked
            && |s.queue| <= 5
            && s.executed <= s.accepted
            && (s.worker.Exited? ==> s.executed == s.accepted)
  {
    RunKeepsInv(New(), acts);
    var s := Run(New(), acts);
    assert s.accepted == s.executed + (InHand(s) + s.queue);
  }

  /** A send blocks exactly while five tasks are queued. */
  lemma SendBlocksExactly(s: Executor, c: Caller)
    requires Inv(s) && c in s.callers && s.callers[c].SubmitSending?
    ensures Enabled(s, Send(c)) <==> |s.queue| < 5
  {
    assert s.active;
  }

  /** What Safety rules out can be said in the model: a send on a closed channel, or closing it twice, would
      go ahead and panic. */
  lemma ClosedChannelPanics(s: Executor, c: Caller)
    requires !s.panicked && s.closed && c in s.callers
    ensures s.callers[c].SubmitSending? ==> Enabled(s, Send(c)) && Apply(s, Send(c)).panicked
    ensures s.callers[c].ShutdownClosing? ==> Enabled(s, Close(c)) && Apply(s, Close(c)).panicked
  {
  }

  lemma {:induction false} RunAppend(s: Executor, acts: seq<Action>, more: seq<Action>)
    requires Legal(s, acts) && Legal(Run(s, acts), more)
    ensures Legal(s, acts + more) && Run(s, acts + more) == Run(Run(s, acts), more)
    decreases |acts|
  {
    if acts == [] {
      assert acts + more == more;
    } else {
      assert (acts + more)[1..] == acts[1..] + more;
      RunAppend(Apply(s, acts[0]), acts[1..], more);
    }
  }

  /** One more step at the end of a run. */
  lemma RunThen(s: Executor, acts: seq<Action>, a: Action)
    requires Legal(s, acts) && Enabled(Run(s, acts), a)
    ensures Legal(s, acts + [a]) && Run(s, acts + [a]) == Apply(Run(s, acts), a)
  {
    var t := Apply(Run(s, acts), a);
    assert Legal(t, []) && Run(t, []) == t;
    assert [a][1..] == [];
    RunAppend(s, acts, [a]);
  }

  // ----- Progress -----

  /** A send that finds the channel full while its caller holds the mutex is unblocked by at most
      two steps of the worker, which never needs the mutex. */
  lemma FullQueueDrains(s: Executor, c: Caller) returns (acts: seq<Action>)
    requires Inv(s) && c in s.callers && s.callers[c].SubmitSending?
    ensures |acts| <= 2 && (forall a <- acts :: a.Receive? || a.FinishWork?)
    ensures Legal(s, acts) && Enabled(Run(s, acts), Send(c)) && Run(s, acts).callers == s.callers
    ensures Inv(Run(s, acts))
  {
    if |s.queue| < CAPACITY {
      acts := [];
    } else if s.worker.Receiving? {
      acts := [Receive];
    } else {
      acts := [FinishWork, Receive];
      assert acts[1..] == [Receive];
      assert Legal(Apply(s, FinishWork), [Receive]);
    }
    RunKeepsInv(s, acts);
  }

  /** How far a caller inside is from its deferred unlock. */
  function Distance(pc: CallerPc): nat {
    match pc
    case Leaving => 0
    case SubmitSending(_) => 1
    case ShutdownClosing => 1
    case _ => 2
  }

  /** Whoever holds the mutex can always come closer to its deferred unlock. */
  lemma HolderComesCloser(s: Executor) returns (acts: seq<Action>)
    requires Inv(s) && s.mutex.Some? && !s.callers[s.mutex.value].Leaving?
    ensures Legal(s, acts) && Inv(Run(s, acts))
    ensures Run(s, acts).mutex == s.mutex && Run(s, acts).callers - {s.mutex.value} == s.callers - {s.mutex.value}
    ensures s.mutex.value in Run(s, acts).callers
    ensures Distance(Run(s, acts).callers[s.mutex.value]) < Distance(s.callers[s.mutex.value])
  {
    var c := s.mutex.value;
    var last :=
      if s.callers[c].SubmitSending? then Send(c)
      else if s.callers[c].ShutdownClosing? then Close(c)
      else TestActive(c);
    acts := [];
    if s.callers[c].SubmitSending? {
      acts := FullQueueDrains(s, c);
    }
    RunThen(s, acts, last);
    StepKeepsInv(Run(s, acts), last);
    acts := acts + [last];
  }

  /** Whoever holds the mutex can always reach its deferred unlock. */
  lemma HolderCanLeave(s: Executor) returns (acts: seq<Action>)
    requires Inv(s) && s.mutex.Some?
    ensures Legal(s, acts) && Inv(Run(s, acts))
    ensures Run(s, acts).mutex.None? && Run(s, acts).callers == s.callers - {s.mutex.value}
    decreases Distance(s.callers[s.mutex.value])
  {
    var c := s.mutex.value;
    if s.callers[c].Leaving? {
      RunThen(s, [], Unlock(c));
      StepKeepsInv(s, Unlock(c));
      acts := [] + [Unlock(c)];
    } else {
      var first := HolderComesCloser(s);
      var rest := HolderCanLeave(Run(s, first));
      RunAppend(s, first, rest);
      acts := first + rest;
    }
  }

  /** No deadlock: from every reachable state every pending call can be brought to its return. */
  lemma EveryCallCanReturn(before: seq<Action>, c: Caller) returns (acts: seq<Action>)
    requires Legal(New(), before) && c in Run(New(), before).callers
    ensures Legal(New(), before + acts) && c !in Run(New(), before + acts).callers
  {
    RunKeepsInv(New(), before);
    var s := Run(New(), before);
    var first: seq<Action> := [];
    if s.mutex.Some? {
      first := HolderCanLeave(s);
    }
    var t := Run(s, first);
    if c in t.callers {
      var u := Apply(t, Lock(c));
      StepKeepsInv(t, Lock(c));
      var rest := HolderCanLeave(u);
      assert Legal(t, [Lock(c)] + rest) && Run(t, [Lock(c)] + rest) == Run(u, rest);
      RunAppend(s, first, [Lock(c)] + rest);
      first := first + ([Lock(c)] + rest);
    }
    acts := first;
    RunAppend(New(), before, acts);
  }

  /** The worker steps that remain: two per queued task, one for work in hand, one to leave. */
  function WorkLeft(s: Executor): nat {
    if s.worker.Exited? then 0 else 2 * |s.queue| + |InHand(s)| + 1
  }

  function WorkerSteps(acts: seq<Action>): nat {
    if acts == [] then 0
    else (if ByWorker(acts[0]) then 1 else 0) + WorkerSteps(acts[1..])
  }

  predicate ByWorker(a: Action) {
    a.Receive? || a.FinishWork?
  }

  lemma DrainStep(s: Executor, a: Action)
    requires Inv(s) && s.closed && Enabled(s, a)
    ensures Apply(s, a).closed && Apply(s, a).accepted == s.accepted
    ensures WorkLeft(Apply(s, a)) + (if ByWorker(a) then 1 else 0) == WorkLeft(s)
  {
  }

  /** The worker has left exactly when no work is left, having finished all that was accepted. */
  lemma WorkLeftMeans(s: Executor)
    requires Inv(s) && s.closed
    ensures s.worker.Exited? <==> WorkLeft(s) == 0
    ensures s.worker.Exited? ==> s.executed == s.accepted
    ensures !s.worker.Exited? ==> Enabled(s, Receive) || Enabled(s, FinishWork)
  {
  }

  /** After the channel is closed nothing more is accepted, and under every scheduling the worker
      takes exactly `WorkLeft` more steps to leave, having finished every accepted task. */
  lemma {:induction false} ShutdownDrains(s: Executor, acts: seq<Action>)
    requires Inv(s) && s.closed && Legal(s, acts)
    ensures var t := Run(s, acts);
            && t.accepted == s.accepted
            && WorkLeft(t) + WorkerSteps(acts) == WorkLeft(s)
            && (t.worker.Exited? <==> WorkerSteps(acts) == WorkLeft(s))
            && (t.worker.Exited? ==> t.executed == s.accepted)
            && (!t.worker.Exited? ==> Enabled(t, Receive) || Enabled(t, FinishWork))
    decreases |acts|
  {
    if acts == [] {
      WorkLeftMeans(s);
    } else {
      StepKeepsInv(s, acts[0]);
      DrainStep(s, acts[0]);
      ShutdownDrains(Apply(s, acts[0]), acts[1..]);
    }
  }

  lemma {:induction false} InactiveAcceptsNothing(s: Executor, acts: seq<Action>)
    requires Legal(s, acts) && !s.active && s.worker.Exited? && s.accepted == s.executed == []
    requires !s.panicked && !s.closed
    requires forall c <- s.callers :: !s.callers[c].SubmitSending? && !s.callers[c].ShutdownClosing?
    ensures Run(s, acts).accepted == [] && Run(s, acts).executed == []
    ensures !Run(s, acts).panicked && !Run(s, acts).closed
    decreases |acts|
  {
    if acts != [] {
      InactiveAcceptsNothing(Apply(s, acts[0]), acts[1..]);
    }
  }

  /** An executor that is the zero value of the struct, as the registration service builds it,
      drops every task: no run of it accepts or executes anything, nor uses the channel it does not have. */
  lemma ZeroValueDropsEverything(acts: seq<Action>)
    requires Legal(ZeroValue(), acts)
    ensures Run(ZeroValue(), acts).accepted == [] && Run(ZeroValue(), acts).executed == []
    ensures !Run(ZeroValue(), acts).panicked && !Run(ZeroValue(), acts).closed
  {
    InactiveAcceptsNothing(ZeroValue(), acts);
  }

  /** The first three steps of a call that finds the mutex free. */
  lemma EntersAlone(s: Executor, c: Caller, call: Action) returns (acts: seq<Action>)
    requires !s.panicked && s.mutex.None? && s.callers == map[]
    requires (call.CallSubmit? || call.CallShutdown?) && call.c == c
    ensures acts == [call, Lock(c), TestActive(c)] && Legal(s, acts)
    ensures Run(s, acts) == if call.CallSubmit?
      then s.(mutex := Some(c), callers := map[c := if s.active then SubmitSending(call.work) else Leaving])
      else s.(mutex := Some(c), active := false, callers := map[c := if s.active then ShutdownClosing else Leaving])
  {
    RunThen(s, [], call);
    RunThen(s, [] + [call], Lock(c));
    RunThen(s, [] + [call] + [Lock(c)], TestActive(c));
    acts := [] + [call] + [Lock(c)] + [TestActive(c)];
  }

  // ----- The object -----

  /** The executor as an object whose calls are not interrupted by other callers. Each method hands
      back the steps it took, so that every use of the object is a run of the step system. */
  class Executing {
    var queue: seq<Task>
    var active: bool
    var worker: Worker
    var accepted: seq<Task>
    var executed: seq<Task>

    ghost function View(): Executor
      reads this
    {
      Executor(queue, !active, active, None, map[], worker, false, accepted, executed)
    }

    constructor ()
      ensures View() == New()
    {
      queue, active, worker, accepted, executed := [], true, Receiving, [], [];
    }

    /** One turn of the worker's loop body. */
    method WorkerStep() returns (ghost act: Action)
      requires Inv(View()) && !worker.Exited? && (queue != [] || worker.Working? || !active)
      modifies this
      ensures Enabled(old(View()), act) && View() == Apply(old(View()), act)
      ensures act.Receive? || act.FinishWork?
    {
      if worker.Working? {
        executed := executed + [worker.work];
        worker := Receiving;
        act := FinishWork;
      } else {
        if queue != [] {
          worker := Working(queue[0]);
          queue := queue[1..];
        } else {
          worker := Exited;
        }
        act := Receive;
      }
    }

    /** Blocks while the channel is full, letting the worker run. */
    method Submit(work: Task) returns (ghost acts: seq<Action>)
      requires Inv(View())
      modifies this
      ensures Legal(old(View()), acts) && Run(old(View()), acts) == View() && Inv(View())
      ensures accepted == old(accepted) + (if old(active) then [work] else [])
      ensures active == old(active)
    {
      ghost var c: Caller := 0;
      ghost var start := View();
      acts := EntersAlone(start, c, CallSubmit(c, work));
      if active {
        while |queue| == CAPACITY
          invariant active && Inv(View()) && accepted == old(accepted)
          invariant Legal(start, acts)
          invariant Run(start, acts) == View().(mutex := Some(c), callers := map[c := SubmitSending(work)])
          invariant |queue| <= CAPACITY
          decreases |queue|, worker.Working?
        {
          ghost var act := WorkerStep();
          RunThen(start, acts, act);
          acts := acts + [act];
          RunKeepsInv(start, acts);
        }
        queue := queue + [work];
        accepted := accepted + [work];
        RunThen(start, acts, Send(c));
        acts := acts + [Send(c)];
      }
      RunThen(start, acts, Unlock(c));
      acts := acts + [Unlock(c)];
      RunKeepsInv(start, acts);
    }

    /** Closes the channel once; tasks already accepted stay queued. */
    method Shutdown() returns (ghost acts: seq<Action>)
      requires Inv(View())
      modifies this
      ensures Legal(old(View()), acts) && Run(old(View()), acts) == View() && Inv(View())
      ensures !active && queue == old(queue) && accepted == old(accepted)
    {
      ghost var c: Caller := 0;
      ghost var start := View();
      acts := EntersAlone(start, c, CallShutdown(c));
      if active {
        active := false;
        RunThen(start, acts, Close(c));
        acts := acts + [Close(c)];
      }
      RunThen(start, acts, Unlock(c));
      acts := acts + [Unlock(c)];
      RunKeepsInv(start, acts);
    }

    /** The worker's loop, run until the channel is closed and empty. */
    method WorkUntilClosed()
      requires Inv(View()) && !active
      modifies this
      ensures Inv(View()) && worker.Exited?
      ensures executed == old(accepted) && accepted == old(accepted)
    {
      while !worker.Exited?
        invariant Inv(View()) && !active && accepted == old(accepted)
        decreases WorkLeft(View())
      {
        ghost var before := View();
        ghost var act := WorkerStep();
        StepKeepsInv(before, act);
      }
    }
  }
}
