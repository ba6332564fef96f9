/** The operator's loop that triggers a users recovery and polls for its end, composed with the
    adapter that runs it. Requests may be lost or handled late, the adapter may restart to idle and
    lose its pass, and the operator may crash at any point and resume from the custom resource (CR). */
module RecoveryHandshake {
  import opened Basics
  import opened RecoveryStates
  import JsonPointer
  import UsersRecovery

  type Users = seq<UsersRecovery.ConnectionProperties>
  type Store = UsersRecovery.Store

  // ----- A recovery pass -----

  /** A pass, the users it recovers, and the user store it started from. */
  datatype Launch = Launch(id: nat, users: Users, base: Store)

  function ChangesOf(launch: Launch): seq<UsersRecovery.Change> {
    UsersRecovery.Changes(launch.users)
  }

  function BatchesOf(launch: Launch): seq<seq<UsersRecovery.Change>> {
    UsersRecovery.Chunks(ChangesOf(launch))
  }

  /** The store a pass leaves behind when it completes. */
  function Outcome(launch: Launch): Store {
    UsersRecovery.ApplyAll(launch.base, ChangesOf(launch))
  }

  /** The store after the first k batches. */
  function AfterBatches(launch: Launch, k: nat): Store
    requires k <= |BatchesOf(launch)|
  {
    UsersRecovery.ApplyAll(launch.base, Flatten(BatchesOf(launch)[..k]))
  }

  /** With k batches accepted, the store differs from that only in users of the batch in progress. */
  predicate PassStore(store: Store, launch: Launch, k: nat) {
    && k <= |BatchesOf(launch)|
    && if k == |BatchesOf(launch)| then store == Outcome(launch)
       else UsersRecovery.AgreeOutside(store, AfterBatches(launch, k),
                                       UsersRecovery.Overrides(BatchesOf(launch)[k]).Keys)
  }

  lemma {:induction false} FlattenSnoc<T>(lists: seq<seq<T>>, last: seq<T>)
    ensures Flatten(lists + [last]) == Flatten(lists) + last
  {
    if lists == [] {
      assert [last][1..] == [] && last + [] == last;
    } else {
      assert (lists + [last])[0] == lists[0] && (lists + [last])[1..] == lists[1..] + [last];
      FlattenSnoc(lists[1..], last);
      AppendAssociates(lists[0], Flatten(lists[1..]), last);
    }
  }

  lemma AfterAllBatches(launch: Launch)
    ensures AfterBatches(launch, |BatchesOf(launch)|) == Outcome(launch)
  {
    var batches := BatchesOf(launch);
    assert batches[..|batches|] == batches;
    UsersRecovery.ChunksFlatten(ChangesOf(launch));
  }

  lemma AfterNextBatch(launch: Launch, k: nat)
    requires k < |BatchesOf(launch)|
    ensures AfterBatches(launch, k + 1) == UsersRecovery.ApplyAll(AfterBatches(launch, k), BatchesOf(launch)[k])
  {
    var batches := BatchesOf(launch);
    assert batches[..k + 1] == batches[..k] + [batches[k]];
    FlattenSnoc(batches[..k], batches[k]);
    UsersRecovery.ApplyAppend(launch.base, Flatten(batches[..k]), batches[k]);
  }

  lemma ExactlyAfter(launch: Launch, k: nat)
    requires k <= |BatchesOf(launch)|
    ensures PassStore(AfterBatches(launch, k), launch, k)
  {
    AfterAllBatches(launch);
  }

  lemma PassStarts(launch: Launch)
    ensures PassStore(launch.base, launch, 0)
  {
    assert BatchesOf(launch)[..0] == [];
    assert AfterBatches(launch, 0) == launch.base;
    ExactlyAfter(launch, 0);
  }

  lemma PassAccepts(store: Store, launch: Launch, k: nat)
    requires PassStore(store, launch, k) && k < |BatchesOf(launch)|
    ensures PassStore(UsersRecovery.ApplyAll(store, BatchesOf(launch)[k]), launch, k + 1)
  {
    UsersRecovery.AgreeAfterOverride(store, AfterBatches(launch, k), BatchesOf(launch)[k]);
    AfterNextBatch(launch, k);
    ExactlyAfter(launch, k + 1);
  }

  lemma PassRefused(store: Store, launch: Launch, k: nat, n: nat)
    requires PassStore(store, launch, k) && k < |BatchesOf(launch)| && n <= |BatchesOf(launch)[k]|
    ensures PassStore(UsersRecovery.ApplyAll(store, BatchesOf(launch)[k][..n]), launch, k)
  {
    UsersRecovery.PartOfBatch(store, AfterBatches(launch, k), BatchesOf(launch)[k], n);
  }

  // ----- History -----

  datatype Event =
    | Entered(resumed: bool)             // the operator entered its loop; the CR said running or not
    | Triggered(started: Option<Launch>) // the adapter's handler ran, and started a pass or not
    | Accepted(id: nat)                  // one batch of the pass was accepted
    | Declined(id: nat)                  // an attempt at a batch was refused
    | Completed(id: nat)
    | Aborted(id: nat)
    | Read(state: RecoveryState, store: Store)   // the operator read the adapter's state; the store then
    | TimedOut                           // the posts were never answered
    | SaveFailed(applied: bool)          // saving that a recovery runs failed, applied or not
    | Wrote(v: RecoveryState)            // the CR was written
    | Left(result: RecoveryState, saved: bool)   // the episode returned, and its final write succeeded or not
    | Crashed                            // the operator crashed inside an episode
    | Restarted                          // the adapter restarted
    | Missed                             // reading the adapter's state failed

  /** What happened, latest event outermost. */
  datatype History = Beginning | After(before: History, event: Event)

  predicate Occurs(h: History, e: Event) {
    h.After? && (h.event == e || Occurs(h.before, e))
  }

  function AcceptedCount(h: History, id: nat): nat {
    if h.Beginning? then 0 else AcceptedCount(h.before, id) + (if h.event == Accepted(id) then 1 else 0)
  }

  /** The pass that completed after the latest trigger: it was live at that trigger or started later. */
  function CompletedSinceTrigger(h: History): Option<nat> {
    if h.Beginning? || h.event.Triggered? then None
    else if h.event.Completed? then Some(h.event.id)
    else CompletedSinceTrigger(h.before)
  }

  predicate AbortedSinceTrigger(h: History) {
    h.After? && !h.event.Triggered? && (h.event.Aborted? || AbortedSinceTrigger(h.before))
  }

  predicate TriggeredSinceEntry(h: History) {
    h.After? && !h.event.Entered? && (h.event.Triggered? || TriggeredSinceEntry(h.before))
  }

  /** The history at the operator's latest reading, before it. */
  function AtLastRead(h: History): History {
    if h.Beginning? || h.event.Read? then (if h.After? then h.before else h) else AtLastRead(h.before)
  }

  function LastRead(h: History): Option<RecoveryState> {
    if h.Beginning? then None else if h.event.Read? then Some(h.event.state) else LastRead(h.before)
  }

  predicate ReadSinceEntry(h: History) {
    h.After? && !h.event.Entered? && (h.event.Read? || ReadSinceEntry(h.before))
  }

  predicate LastEntryResumed(h: History) {
    h.After? && (if h.event.Entered? then h.event.resumed else LastEntryResumed(h.before))
  }

  predicate EveryBatchAccepted(h: History, launch: Launch) {
    Occurs(h, Triggered(Some(launch))) && AcceptedCount(h, launch.id) == |BatchesOf(launch)|
  }

  /** What the CR says: what was written last. */
  function LastWritten(start: Option<RecoveryState>, h: History): Option<RecoveryState> {
    if h.Beginning? then start
    else
      match h.event
      case Wrote(v) => Some(v)
      case SaveFailed(applied) => if applied then Some(Running) else LastWritten(start, h.before)
      case Left(result, saved) => if saved then Some(result) else LastWritten(start, h.before)
      case _ => LastWritten(start, h.before)
  }

  /** The state of an adapter with this history. */
  function AdapterOf(h: History): RecoveryState {
    if h.Beginning? then Idle
    else
      match h.event
      case Triggered(_) => Running
      case Completed(_) => Done
      case Aborted(_) => Failed
      case Restarted => Idle
      case _ => AdapterOf(h.before)
  }

  /** The attempts refused in a row at the batch the pass stands at. */
  function Refusals(h: History, id: nat): nat {
    if h.Beginning? then 0
    else
      match h.event
      case Declined(other) => Refusals(h.before, id) + (if other == id then 1 else 0)
      case Accepted(other) => if other == id then 0 else Refusals(h.before, id)
      case Triggered(started) =>
        if started.Some? && started.value.id == id then 0 else Refusals(h.before, id)
      case _ => Refusals(h.before, id)
  }

  /** A trigger starts a pass exactly when none is in progress, and a pass is given up only after a third
      refusal in a row. */
  predicate Orderly(h: History) {
    h.Beginning? ||
    (&& Orderly(h.before)
     && (h.event.Triggered? ==> (h.event.started.Some? <==> AdapterOf(h.before) != Running))
     && (h.event.Aborted? ==> Refusals(h.before, h.event.id) == 3))
  }

  /** The state was saved as running after the latest reading that failed. */
  predicate SavedSinceMiss(h: History) {
    h.After? && !h.event.Missed? && (h.event == Wrote(Running) || SavedSinceMiss(h.before))
  }

  /** How the latest episode ended: left, or crashed; None before the first end. */
  function LastEnd(h: History): Option<Event> {
    if h.Beginning? then None
    else if h.event.Left? || h.event.Crashed? then Some(h.event)
    else LastEnd(h.before)
  }

  /** What decided the operator's course latest in its episode: its entry, a reading, posts that timed out
      or a save that failed. */
  function LastSignal(h: History): Option<Event> {
    if h.Beginning? then None
    else if h.event.Entered? || h.event.Read? || h.event.TimedOut? || h.event.SaveFailed? then Some(h.event)
    else LastSignal(h.before)
  }

  function LastStore(h: History): Store {
    if h.Beginning? then map[] else if h.event.Read? then h.event.store else LastStore(h.before)
  }

  // ----- The composed system -----

  /** The recovery goroutine: batches accepted, and attempts refused of the next one. */
  datatype Pass = Pass(launch: Launch, accepted: nat, refused: nat)

  /** Where the operator is. `Skipped` is the return for a CR without any recovery state. */
  datatype Pc = Outside | LoopHead | Posting | Posted | Sleeping | Returned(result: RecoveryState) | Skipped

  datatype State = State(
    cr: Option<RecoveryState>,
    pc: Pc,
    known: RecoveryState,       // the operator's local state variable
    adapter: RecoveryState,
    pass: Option<Pass>,         // the adapter's recovery goroutine
    store: Store,               // the users in the cluster
    last: Option<Launch>,       // the latest pass that was started
    late: nat,                  // lost requests whose handler may still run
    nextId: nat,
    history: History)

  datatype Action =
    | Enter
    | TestLoop
    | PostAnswered(users: Users)      // the handler ran and the operator got its 200
    | PostLost                        // no answer; the handler may run later or never
    | PostTimeout
    | SaveRunning
    | SaveFails(applied: bool)
    | GetAnswered
    | GetFails
    | Leave(saved: bool)
    | ConfigureWrites(v: RecoveryState)
    | OperatorCrash
    | LateHandler(users: Users)
    | BatchAccepted
    | BatchRefused(part: nat)         // the first operations of the batch may have been applied
    | PassCompletes
    | PassAborts
    | AdapterRestart

  function Init(cr: Option<RecoveryState>, store: Store): State {
    State(cr, Outside, Idle, Idle, None, store, None, 0, 0, Beginning)
  }

  /** A batch is left, and an attempt at it. */
  predicate Sending(s: State) {
    && s.pass.Some? && s.pass.value.accepted < |BatchesOf(s.pass.value.launch)|
    && s.pass.value.refused < UsersRecovery.ATTEMPTS
  }

  predicate Enabled(s: State, a: Action) {
    match a
    case Enter => s.pc.Outside?
    case TestLoop => s.pc.LoopHead?
    case PostAnswered(_) => s.pc.Posting?
    case PostLost => s.pc.Posting?
    case PostTimeout => s.pc.Posting?
    case SaveRunning => s.pc.Posted?
    case SaveFails(_) => s.pc.Posted?
    case GetAnswered => s.pc.Sleeping?
    case GetFails => s.pc.Sleeping?
    case Leave(_) => s.pc.Returned? || s.pc.Skipped?
    case ConfigureWrites(v) => s.pc.Outside? && (v == Running ==> s.cr == Some(Running))
    case OperatorCrash => true
    case LateHandler(_) => s.late > 0
    case BatchAccepted => Sending(s)
    case BatchRefused(_) => Sending(s)
    case PassCompletes => s.pass.Some? && s.pass.value.accepted == |BatchesOf(s.pass.value.launch)|
    case PassAborts => s.pass.Some? && s.pass.value.refused == UsersRecovery.ATTEMPTS
    case AdapterRestart => true
  }

  function Log(s: State, e: Event): State {
    s.(history := After(s.history, e))
  }

  /** The handler: a running recovery is left alone, otherwise a new pass starts. */
  function Handle(s: State, users: Users): State {
    if s.adapter == Running then Log(s, Triggered(None))
    else
      var launch := Launch(s.nextId, users, s.store);
      Log(s.(adapter := Running, pass := Some(Pass(launch, 0, 0)), last := Some(launch), nextId := s.nextId + 1),
          Triggered(Some(launch)))
  }

  function Batch(s: State): seq<UsersRecovery.Change>
    requires Sending(s)
  {
    BatchesOf(s.pass.value.launch)[s.pass.value.accepted]
  }

  function Apply(s: State, a: Action): State
    requires Enabled(s, a)
  {
    match a
    case Enter =>
      if s.cr.None? then s.(pc := Skipped)
      else
        var resumed := s.cr.value == Running;
        Log(s.(pc := LoopHead, known := if resumed then Running else Idle), Entered(resumed))
    case TestLoop =>
      if s.known == Done || s.known == Failed then s.(pc := Returned(s.known))
      else if s.known == Idle then s.(pc := Posting)
      else s.(pc := Sleeping)
    case PostAnswered(users) => Handle(s.(pc := Posted), users)
    case PostLost => s.(late := s.late + 1)
    case PostTimeout => Log(s.(known := Failed, pc := LoopHead), TimedOut)
    case SaveRunning => Log(s.(cr := Some(Running), pc := Sleeping), Wrote(Running))
    case SaveFails(applied) =>
      Log(s.(cr := if applied then Some(Running) else s.cr, pc := Returned(Running)), SaveFailed(applied))
    case GetAnswered => Log(s.(known := s.adapter, pc := LoopHead), Read(s.adapter, s.store))
    case GetFails => Log(s.(pc := LoopHead), Missed)
    case Leave(saved) =>
      var result := if s.pc.Skipped? then Done else s.pc.result;
      Log(s.(pc := Outside, cr := if saved then Some(result) else s.cr), Left(result, saved))
    case ConfigureWrites(v) => Log(s.(cr := Some(v)), Wrote(v))
    case OperatorCrash => if s.pc.Outside? then s else Log(s.(pc := Outside), Crashed)
    case LateHandler(users) => Handle(s.(late := s.late - 1), users)
    case BatchAccepted =>
      Log(s.(pass := Some(s.pass.value.(accepted := s.pass.value.accepted + 1, refused := 0)),
             store := UsersRecovery.ApplyAll(s.store, Batch(s))),
          Accepted(s.pass.value.launch.id))
    case BatchRefused(applied) =>
      var n := if applied <= |Batch(s)| then applied else |Batch(s)|;
      Log(s.(pass := Some(s.pass.value.(refused := s.pass.value.refused + 1)),
             store := UsersRecovery.ApplyAll(s.store, Batch(s)[..n])),
          Declined(s.pass.value.launch.id))
    case PassCompletes => Log(s.(adapter := Done, pass := None), Completed(s.pass.value.launch.id))
    case PassAborts => Log(s.(adapter := Failed, pass := None), Aborted(s.pass.value.launch.id))
    case AdapterRestart => Log(s.(adapter := Idle, pass := None), Restarted)
  }

  predicate Legal(s: State, acts: seq<Action>)
    decreases |acts|
  {
    acts == [] || (Enabled(s, acts[0]) && Legal(Apply(s, acts[0]), acts[1..]))
  }

  function Run(s: State, acts: seq<Action>): State
    requires Legal(s, acts)
    decreases |acts|
  {
    if acts == [] then s else Run(Apply(s, acts[0]), acts[1..])
  }

  // ----- Invariants -----

  /** The adapter's state tells what became of the latest trigger. */
  predicate AdapterInv(s: State) {
    && (s.adapter == Running <==> s.pass.Some?)
    && (s.adapter == Done ==> CompletedSinceTrigger(s.history).Some?)
    && (s.adapter == Failed ==> AbortedSinceTrigger(s.history))
  }

  /** The pass in progress is the latest one, and has had as many batches accepted as it counted. */
  ghost predicate PassInv(s: State) {
    && (s.pass.Some? ==>
          && s.last == Some(s.pass.value.launch)
          && AcceptedCount(s.history, s.pass.value.launch.id) == s.pass.value.accepted)
    && (s.last.Some? ==> s.last.value.id < s.nextId && Occurs(s.history, Triggered(Some(s.last.value))))
    && (forall id: nat | s.nextId <= id :: AcceptedCount(s.history, id) == 0)
  }

  /** The store is what the pass in progress has made of it so far. */
  predicate StoreInv(s: State) {
    s.pass.Some? ==> PassStore(s.store, s.pass.value.launch, s.pass.value.accepted)
  }

  /** The latest pass completed after the latest trigger, with every batch accepted, and nothing has
      touched the store since. */
  predicate RecoveredBy(h: History, launch: Launch, store: Store) {
    && CompletedSinceTrigger(h) == Some(launch.id)
    && EveryBatchAccepted(h, launch)
    && store == Outcome(launch)
  }

  predicate DoneInv(s: State) {
    s.adapter == Done ==> s.last.Some? && RecoveredBy(s.history, s.last.value, s.store)
  }

  /** Where the operator is, it knows what brings it there. */
  predicate PcInv(s: State) {
    && (s.pc.Posting? || s.pc.Posted? ==> s.known == Idle)
    && (s.pc.Sleeping? ==> s.known == Idle || s.known == Running)
  }

  predicate KnowsDone(s: State) {
    (s.pc.LoopHead? && s.known == Done) || s.pc == Returned(Done)
  }

  /** What the operator knows, it read. */
  ghost predicate ReadInv(s: State) {
    KnowsDone(s) ==> ReadDone(s.history)
  }

  ghost predicate ReadDone(h: History) {
    LastRead(h) == Some(Done) && exists launch: Launch :: RecoveredBy(AtLastRead(h), launch, LastStore(h))
  }

  /** The latest reading belongs to the current episode and follows a trigger of it. */
  predicate ReadAfterTrigger(h: History) {
    ReadSinceEntry(h) && TriggeredSinceEntry(AtLastRead(h))
  }

  /** In an episode that did not resume one, everything after the first post follows a trigger. */
  predicate EpisodeInv(s: State) {
    !s.pc.Outside? && !s.pc.Skipped? && !LastEntryResumed(s.history) ==>
      && (s.pc.Posted? || s.pc.Sleeping? || (s.pc.LoopHead? && s.known == Running) ==> TriggeredSinceEntry(s.history))
      && ((s.pc.LoopHead? || s.pc.Sleeping?) && (s.known == Running || s.known == Done) ==> ReadAfterTrigger(s.history))
      && (s.pc.Returned? && s.pc.result == Done ==> ReadAfterTrigger(s.history))
  }

  ghost predicate Inv(s: State) {
    AdapterInv(s) && PassInv(s) && StoreInv(s) && DoneInv(s) && PcInv(s) && ReadInv(s) && EpisodeInv(s)
  }

  lemma StepKeepsAdapterInv(s: State, a: Action)
    requires AdapterInv(s) && Enabled(s, a)
    ensures AdapterInv(Apply(s, a))
  {
  }

  predicate Accepts(s: State, a: Action, id: nat) {
    a.BatchAccepted? && s.pass.Some? && s.pass.value.launch.id == id
  }

  lemma CountAfterStep(s: State, a: Action, id: nat)
    requires Enabled(s, a)
    ensures AcceptedCount(Apply(s, a).history, id)
         == AcceptedCount(s.history, id) + (if Accepts(s, a, id) then 1 else 0)
  {
  }

  lemma OccursAfterStep(s: State, a: Action, e: Event)
    requires Enabled(s, a)
    ensures Occurs(s.history, e) ==> Occurs(Apply(s, a).history, e)
  {
  }

  lemma StepKeepsPassInv(s: State, a: Action)
    requires AdapterInv(s) && PassInv(s) && Enabled(s, a)
    ensures PassInv(Apply(s, a))
  {
    forall id: nat
      ensures AcceptedCount(Apply(s, a).history, id)
           == AcceptedCount(s.history, id) + (if Accepts(s, a, id) then 1 else 0)
    {
      CountAfterStep(s, a, id);
    }
    if s.last.Some? {
      OccursAfterStep(s, a, Triggered(Some(s.last.value)));
    }
  }

  lemma StepKeepsStoreInv(s: State, a: Action)
    requires StoreInv(s) && Enabled(s, a)
    ensures StoreInv(Apply(s, a))
  {
    match a {
      case PostAnswered(users) => PassStarts(Launch(s.nextId, users, s.store));
      case LateHandler(users) => PassStarts(Launch(s.nextId, users, s.store));
      case BatchAccepted => PassAccepts(s.store, s.pass.value.launch, s.pass.value.accepted);
      case BatchRefused(applied) =>
        var n := if applied <= |Batch(s)| then applied else |Batch(s)|;
        PassRefused(s.store, s.pass.value.launch, s.pass.value.accepted, n);
      case _ =>
    }
  }

  lemma StepKeepsDoneInv(s: State, a: Action)
    requires AdapterInv(s) && PassInv(s) && StoreInv(s) && DoneInv(s) && Enabled(s, a)
    ensures DoneInv(Apply(s, a))
  {
    if s.last.Some? {
      CountAfterStep(s, a, s.last.value.id);
      OccursAfterStep(s, a, Triggered(Some(s.last.value)));
    }
  }

  lemma ReadDoneStays(s: State, a: Action)
    requires Enabled(s, a) && !a.GetAnswered? && ReadDone(s.history)
    ensures ReadDone(Apply(s, a).history)
  {
    var h := Apply(s, a).history;
    var launch: Launch :| RecoveredBy(AtLastRead(s.history), launch, LastStore(s.history));
    assert AtLastRead(h) == AtLastRead(s.history) && LastStore(h) == LastStore(s.history);
    assert RecoveredBy(AtLastRead(h), launch, LastStore(h));
  }

  lemma StepKeepsPcInv(s: State, a: Action)
    requires PcInv(s) && Enabled(s, a)
    ensures PcInv(Apply(s, a))
    ensures KnowsDone(Apply(s, a)) && !a.GetAnswered? ==> KnowsDone(s)
  {
  }

  lemma StepKeepsReadInv(s: State, a: Action)
    requires DoneInv(s) && PcInv(s) && ReadInv(s) && Enabled(s, a)
    ensures ReadInv(Apply(s, a))
  {
    StepKeepsPcInv(s, a);
    if a.GetAnswered? {
      if s.adapter == Done {
        var h := Apply(s, a).history;
        assert RecoveredBy(AtLastRead(h), s.last.value, LastStore(h));
      }
    } else if KnowsDone(s) {
      ReadDoneStays(s, a);
    }
  }

  lemma StepKeepsEpisodeInv(s: State, a: Action)
    requires PcInv(s) && EpisodeInv(s) && Enabled(s, a)
    ensures EpisodeInv(Apply(s, a))
  {
  }

  lemma {:induction false} RunKeepsInv(s: State, acts: seq<Action>)
    requires Inv(s) && Legal(s, acts)
    ensures Inv(Run(s, acts))
    decreases |acts|
  {
    if acts != [] {
      StepKeepsAdapterInv(s, acts[0]);
      StepKeepsPassInv(s, acts[0]);
      StepKeepsStoreInv(s, acts[0]);
      StepKeepsDoneInv(s, acts[0]);
      StepKeepsPcInv(s, acts[0]);
      StepKeepsReadInv(s, acts[0]);
      StepKeepsEpisodeInv(s, acts[0]);
      RunKeepsInv(Apply(s, acts[0]), acts[1..]);
    }
  }

  /** Whenever the operator's loop ends in done, for any schedule, losses, adapter restarts and operator
      crashes: at its last reading a recovery pass had completed after the latest trigger, every batch
      of that pass was accepted, and the users were those the pass started from, overridden by all its
      changes. */
  lemma DoneMeansRecovered(cr: Option<RecoveryState>, store: Store, acts: seq<Action>) returns (launch: Launch)
    requires Legal(Init(cr, store), acts) && Run(Init(cr, store), acts).pc == Returned(Done)
    ensures var h := Run(Init(cr, store), acts).history;
            && LastRead(h) == Some(Done)
            && CompletedSinceTrigger(AtLastRead(h)) == Some(launch.id)
            && EveryBatchAccepted(AtLastRead(h), launch)
            && LastStore(h) == UsersRecovery.ApplyAll(launch.base, UsersRecovery.Changes(launch.users))
  {
    RunKeepsInv(Init(cr, store), acts);
    var h := Run(Init(cr, store), acts).history;
    launch :| RecoveredBy(AtLastRead(h), launch, LastStore(h));
  }

  /** In particular every listed user with a plain name has its last content again. */
  lemma DoneMeansUsersAreBack(cr: Option<RecoveryState>, store: Store, acts: seq<Action>) returns (launch: Launch)
    requires Legal(Init(cr, store), acts) && Run(Init(cr, store), acts).pc == Returned(Done)
    ensures CompletedSinceTrigger(AtLastRead(Run(Init(cr, store), acts).history)) == Some(launch.id)
    ensures (forall p <- launch.users :: JsonPointer.Plain(p.username)) ==>
              UsersRecovery.Recovered(launch.base, LastStore(Run(Init(cr, store), acts).history), launch.users)
  {
    launch := DoneMeansRecovered(cr, store, acts);
    if forall p <- launch.users :: JsonPointer.Plain(p.username) {
      UsersRecovery.ApplyAllRecovers(launch.base, launch.users);
    }
  }

  /** Unless the episode resumed one whose state was running, that trigger was one of the episode. */
  lemma DoneFollowsOwnTrigger(cr: Option<RecoveryState>, store: Store, acts: seq<Action>)
    requires Legal(Init(cr, store), acts) && Run(Init(cr, store), acts).pc == Returned(Done)
    requires !LastEntryResumed(Run(Init(cr, store), acts).history)
    ensures ReadAfterTrigger(Run(Init(cr, store), acts).history)
  {
    RunKeepsInv(Init(cr, store), acts);
  }

  // ----- What the adapter does -----

  /** The adapter's state is what its history says, and the pass counts the refusals in a row. */
  predicate OrderInv(s: State) {
    && AdapterAgrees(s)
    && (s.pass.Some? ==> s.pass.value.refused == Refusals(s.history, s.pass.value.launch.id))
    && Orderly(s.history)
  }

  predicate AdapterAgrees(s: State) {
    s.adapter == AdapterOf(s.history) && (s.adapter == Running <==> s.pass.Some?)
  }

  lemma StepKeepsAdapter(s: State, a: Action)
    requires AdapterAgrees(s) && Enabled(s, a)
    ensures AdapterAgrees(Apply(s, a))
  {
  }

  lemma StepKeepsOrderInv(s: State, a: Action)
    requires OrderInv(s) && Enabled(s, a)
    ensures OrderInv(Apply(s, a))
  {
    StepKeepsAdapter(s, a);
  }

  /** Over every run: the adapter says running from a trigger, done after a completed pass, failed after one
      given up and idle after a restart; passes do not overlap; and a pass is given up only after three
      refusals of one batch in a row. */
  lemma {:induction false} AdapterIsOrderly(s: State, acts: seq<Action>)
    requires OrderInv(s) && Legal(s, acts)
    ensures OrderInv(Run(s, acts))
    decreases |acts|
  {
    if acts != [] {
      StepKeepsOrderInv(s, acts[0]);
      AdapterIsOrderly(Apply(s, acts[0]), acts[1..]);
    }
  }

  function CountLost(acts: seq<Action>): nat {
    if acts == [] then 0 else (if acts[0].PostLost? then 1 else 0) + CountLost(acts[1..])
  }

  function CountLate(acts: seq<Action>): nat {
    if acts == [] then 0 else (if acts[0].LateHandler? then 1 else 0) + CountLate(acts[1..])
  }

  /** Every post without an answer may still be handled once, however late, and nothing else is. */
  lemma {:induction false} LostPostsMayBeHandled(s: State, acts: seq<Action>, users: Users)
    requires Legal(s, acts)
    ensures Run(s, acts).late + CountLate(acts) == s.late + CountLost(acts)
    ensures Enabled(Run(s, acts), LateHandler(users)) <==> CountLate(acts) < s.late + CountLost(acts)
    decreases |acts|
  {
    if acts != [] {
      LostPostsMayBeHandled(Apply(s, acts[0]), acts[1..], users);
    }
  }

  /** A step of the operator inside its episode. */
  predicate ByOperator(a: Action) {
    a.TestLoop? || a.PostAnswered? || a.PostLost? || a.PostTimeout? || a.SaveRunning? || a.SaveFails? ||
    a.GetAnswered? || a.GetFails?
  }

  /** Without any state in the CR the operator does nothing and returns done. */
  lemma {:induction false} NoStateNoPost(s: State, acts: seq<Action>)
    requires s.pc.Skipped? && Legal(s, acts) && forall i | 0 <= i < |acts| :: !acts[i].Leave? && !acts[i].OperatorCrash?
    ensures Run(s, acts).pc.Skipped? && (forall i | 0 <= i < |acts| :: !ByOperator(acts[i]))
    ensures Apply(Run(s, acts), Leave(true)).cr == Some(Done)
    decreases |acts|
  {
    if acts != [] {
      assert !acts[0].Leave? && forall i | 0 <= i < |acts[1..]| :: acts[1..][i] == acts[i + 1];
      NoStateNoPost(Apply(s, acts[0]), acts[1..]);
      assert forall i | 0 < i < |acts| :: acts[i] == acts[1..][i - 1];
    }
  }

  // ----- What each fault leads to -----

  lemma OneStep(s: State, a: Action)
    requires Enabled(s, a)
    ensures Legal(s, [a]) && Run(s, [a]) == Apply(s, a)
  {
    assert [a][1..] == [];
  }

  lemma TwoSteps(s: State, a: Action, b: Action)
    requires Enabled(s, a) && Enabled(Apply(s, a), b)
    ensures Legal(s, [a, b]) && Run(s, [a, b]) == Apply(Apply(s, a), b)
  {
    assert [a, b][1..] == [b];
    OneStep(Apply(s, a), b);
  }

  lemma ThreeSteps(s: State, a: Action, b: Action, c: Action)
    requires Enabled(s, a) && Enabled(Apply(s, a), b) && Enabled(Apply(Apply(s, a), b), c)
    ensures Legal(s, [a, b, c]) && Run(s, [a, b, c]) == Apply(Apply(Apply(s, a), b), c)
  {
    assert [a, b, c][1..] == [b, c];
    TwoSteps(Apply(s, a), b, c);
  }

  /** Posts that are never answered end the episode in failed, and may still be handled afterwards. */
  lemma PostsCanTimeOut(s: State)
    requires s.pc.Posting?
    ensures var acts := [PostLost, PostTimeout, TestLoop];
            Legal(s, acts) && Run(s, acts).pc == Returned(Failed) && Run(s, acts).late == s.late + 1
  {
    ThreeSteps(s, PostLost, PostTimeout, TestLoop);
  }

  /** A failed save ends the episode at once, with the recovery going on and the CR saying so or not. */
  lemma SaveCanFail(s: State, applied: bool)
    requires s.pc.Posted?
    ensures Legal(s, [SaveFails(applied), Leave(false)])
    ensures var t := Run(s, [SaveFails(applied), Leave(false)]);
            && t.pc.Outside? && t.pass == s.pass && t.cr == (if applied then Some(Running) else s.cr)
            && LastEnd(t.history) == Some(Left(Running, false))
  {
    TwoSteps(s, SaveFails(applied), Leave(false));
  }

  /** A failed reading makes the operator post again if it has not read anything yet, else wait and read again. */
  lemma ReadCanFail(s: State)
    requires s.pc.Sleeping? && s.known in {Idle, Running}
    ensures Legal(s, [GetFails, TestLoop])
    ensures Run(s, [GetFails, TestLoop]).pc == if s.known == Idle then Posting else Sleeping
  {
    TwoSteps(s, GetFails, TestLoop);
  }

  /** A crash anywhere in an episode is followed by one that resumes exactly if the CR says running, unless
      `Configure` wrote it in between; the adapter goes on meanwhile. */
  lemma CrashCanHappen(s: State)
    requires !s.pc.Outside? && s.cr.Some?
    ensures Legal(s, [OperatorCrash, Enter])
    ensures var t := Run(s, [OperatorCrash, Enter]);
            && t.pc.LoopHead? && t.known == (if s.cr == Some(Running) then Running else Idle)
            && (t.adapter, t.pass, t.store, t.cr) == (s.adapter, s.pass, s.store, s.cr)
    ensures Legal(s, [OperatorCrash, ConfigureWrites(Idle), Enter])
    ensures Run(s, [OperatorCrash, ConfigureWrites(Idle), Enter]).known == Idle
    ensures Run(s, [OperatorCrash, ConfigureWrites(Idle), Enter]).pc.LoopHead?
  {
    TwoSteps(s, OperatorCrash, Enter);
    ThreeSteps(s, OperatorCrash, ConfigureWrites(Idle), Enter);
  }

  /** Three refusals of a batch can end a pass, and a restart of the adapter always does; neither undoes what
      was applied. */
  lemma PassCanFail(s: State)
    requires Sending(s) && s.pass.value.refused == 0 && Batch(s) != []
    ensures var acts := [BatchRefused(0), BatchRefused(0), BatchRefused(0)] + [PassAborts];
            Legal(s, acts) && Run(s, acts).adapter == Failed && Run(s, acts).pass.None? && Run(s, acts).store == s.store
    ensures Legal(s, [AdapterRestart])
    ensures var t := Run(s, [AdapterRestart]); t.adapter == Idle && t.pass.None? && t.store == s.store
  {
    var refuse := BatchRefused(0);
    assert Batch(s)[..0] == [] && UsersRecovery.ApplyAll(s.store, []) == s.store;
    ThreeSteps(s, refuse, refuse, refuse);
    RunThen(s, [refuse, refuse, refuse], PassAborts);
    OneStep(s, AdapterRestart);
  }

  lemma EntersSkippedExactly(s: State)
    requires s.pc.Outside?
    ensures Apply(s, Enter).pc.Skipped? <==> s.cr.None?
  {
  }

  // ----- How an episode ends, and what the CR says afterwards -----

  /** The operator stands where the latest signal of its episode sends it. */
  predicate CourseInv(s: State) {
    s.pc.Outside? || s.pc.Skipped? ||
    (LastSignal(s.history).Some? &&
     match LastSignal(s.history).value
     case Entered(resumed) =>
       if resumed then s.known == Running && s.pc in {LoopHead, Sleeping}
       else s.known == Idle && s.pc in {LoopHead, Posting, Posted, Sleeping}
     case Read(state, _) =>
       && s.known == state
       && s.pc in (if state == Idle then {LoopHead, Posting, Posted, Sleeping}
                   else if state == Running then {LoopHead, Sleeping} else {LoopHead, Returned(state)})
     case TimedOut => s.known == Failed && s.pc in {LoopHead, Returned(Failed)}
     case SaveFailed(_) => s.pc == Returned(Running)
     case _ => false)
  }

  /** An operator that waits for its own recovery without having read anything has saved that it runs since
      its latest failed reading: a failed reading makes it post again. */
  predicate MissInv(s: State) {
    s.pc.Sleeping? && s.known == Idle ==> SavedSinceMiss(s.history)
  }

  /** The CR says what was written last. */
  predicate CrInv(start: Option<RecoveryState>, s: State) {
    s.cr == LastWritten(start, s.history)
  }

  /** Why the CR may say running outside an episode: it did at first, or the latest episode crashed, lost
      its final write, or returned because saving failed. */
  predicate RunningExplained(start: Option<RecoveryState>, h: History) {
    match LastEnd(h)
    case None => start == Some(Running)
    case Some(e) => e.Crashed? || (e.Left? && (!e.saved || e.result == Running))
  }

  predicate EndInv(start: Option<RecoveryState>, s: State) {
    && (s.pc.Outside? && s.cr == Some(Running) ==> RunningExplained(start, s.history))
    && (LastEnd(s.history).None? && s.pc.Outside? && start != Some(Running) ==> s.cr != Some(Running))
  }

  lemma StepKeepsCourseInv(s: State, a: Action)
    requires CourseInv(s) && Enabled(s, a)
    ensures CourseInv(Apply(s, a))
  {
  }

  lemma StepKeepsMissInv(s: State, a: Action)
    requires CourseInv(s) && MissInv(s) && Enabled(s, a)
    ensures MissInv(Apply(s, a))
  {
  }

  lemma StepKeepsCrInv(start: Option<RecoveryState>, s: State, a: Action)
    requires CrInv(start, s) && Enabled(s, a)
    ensures CrInv(start, Apply(s, a))
  {
  }

  lemma StepKeepsEndInv(start: Option<RecoveryState>, s: State, a: Action)
    requires EndInv(start, s) && Enabled(s, a)
    ensures EndInv(start, Apply(s, a))
  {
  }

  lemma {:induction false} RunKeepsEnds(start: Option<RecoveryState>, s: State, acts: seq<Action>)
    requires CourseInv(s) && MissInv(s) && CrInv(start, s) && EndInv(start, s) && Legal(s, acts)
    ensures var t := Run(s, acts); CourseInv(t) && MissInv(t) && CrInv(start, t) && EndInv(start, t)
    decreases |acts|
  {
    if acts != [] {
      StepKeepsCourseInv(s, acts[0]);
      StepKeepsMissInv(s, acts[0]);
      StepKeepsCrInv(start, s, acts[0]);
      StepKeepsEndInv(start, s, acts[0]);
      RunKeepsEnds(start, Apply(s, acts[0]), acts[1..]);
    }
  }

  /** The event makes the operator return this. */
  predicate Justifies(e: Event, result: RecoveryState) {
    match e
    case Read(state, _) => state == result && (state == Done || state == Failed)
    case TimedOut => result == Failed
    case SaveFailed(_) => result == Running
    case _ => false
  }

  /** The operator returns done exactly on reading done, failed exactly on reading failed or when its posts
      time out, running exactly when saving that state failed, and never anything else: what it returned is
      justified by the latest signal, and after a signal that justifies a result it can only return that. */
  lemma ReturnsExactly(cr: Option<RecoveryState>, store: Store, acts: seq<Action>, result: RecoveryState)
    requires Legal(Init(cr, store), acts)
    requires !Run(Init(cr, store), acts).pc.Outside? && !Run(Init(cr, store), acts).pc.Skipped?
    ensures var s := Run(Init(cr, store), acts);
            && LastSignal(s.history).Some?
            && (s.pc == Returned(result) ==> Justifies(LastSignal(s.history).value, result))
            && (Justifies(LastSignal(s.history).value, result) ==>
                  s.pc == Returned(result) || (s.pc.LoopHead? && Apply(s, TestLoop).pc == Returned(result)))
  {
    RunKeepsEnds(cr, Init(cr, store), acts);
  }

  /** After its post the operator reads only what it has waited for since: with a failed reading behind it, it
      posted and saved again. */
  lemma PostsAgainAfterMiss(cr: Option<RecoveryState>, store: Store, acts: seq<Action>)
    requires Legal(Init(cr, store), acts)
    requires Run(Init(cr, store), acts).pc.Sleeping? && Run(Init(cr, store), acts).known == Idle
    ensures SavedSinceMiss(Run(Init(cr, store), acts).history)
  {
    RunKeepsEnds(cr, Init(cr, store), acts);
  }

  /** An aborted pass is what makes the operator read failed. */
  lemma FailedReadMeansAborted(cr: Option<RecoveryState>, store: Store, acts: seq<Action>)
    requires Legal(Init(cr, store), acts) && Enabled(Run(Init(cr, store), acts), GetAnswered)
    requires LastRead(Apply(Run(Init(cr, store), acts), GetAnswered).history) == Some(Failed)
    ensures AbortedSinceTrigger(Run(Init(cr, store), acts).history)
  {
    RunKeepsInv(Init(cr, store), acts);
  }

  /** After an episode left with its write the CR says what it returned; whenever the CR says running outside
      an episode, it said so at first, or the latest episode crashed, lost its write, or failed to save. */
  lemma CrAfterEpisode(cr: Option<RecoveryState>, store: Store, acts: seq<Action>)
    requires Legal(Init(cr, store), acts)
    ensures var s := Run(Init(cr, store), acts);
            && s.cr == LastWritten(cr, s.history)
            && (s.pc.Outside? && s.cr == Some(Running) ==> RunningExplained(cr, s.history))
    ensures forall saved: bool | Enabled(Run(Init(cr, store), acts), Leave(saved)) ::
              var s := Run(Init(cr, store), acts); var t := Apply(s, Leave(saved));
              && t.pc.Outside? && t.cr == (if saved then Some(if s.pc.Skipped? then Done else s.pc.result) else s.cr)
              && LastEnd(t.history) == Some(Left(if s.pc.Skipped? then Done else s.pc.result, saved))
  {
    RunKeepsEnds(cr, Init(cr, store), acts);
  }

  // ----- Done without a trigger of its own -----

  /** A step inside one episode that lets no handler run. */
  predicate Quiet(a: Action) {
    !a.Enter? && !a.PostAnswered? && !a.LateHandler? && !a.OperatorCrash? && !a.Leave? && !a.ConfigureWrites?
  }

  predicate EndsDoneQuietly(s: State, acts: seq<Action>) {
    && Enabled(s, Enter) && (forall a <- acts :: Quiet(a))
    && Legal(Apply(s, Enter), acts) && Run(Apply(s, Enter), acts).pc == Returned(Done)
  }

  /** A pass is in progress that has all batches accepted or an attempt left at the next one. */
  predicate CanComplete(s: State) {
    && s.pass.Some?
    && (|| s.pass.value.accepted == |BatchesOf(s.pass.value.launch)|
        || s.pass.value.refused < UsersRecovery.ATTEMPTS)
  }

  /** No reading can become done: the operator never gets to read, or no pass can complete. */
  predicate Barren(s: State) {
    || s.pc.Skipped?
    || (s.known in {Idle, Failed} && s.pc in {LoopHead, Posting, Returned(Failed)})
    || (s.adapter != Done && !CanComplete(s) && s.known != Done && !s.pc.Posted? && s.pc != Returned(Done))
  }

  lemma {:induction false} BarrenStays(s: State, acts: seq<Action>)
    requires Barren(s) && Legal(s, acts) && forall a <- acts :: Quiet(a)
    ensures Barren(Run(s, acts))
    decreases |acts|
  {
    if acts != [] {
      assert acts[0] in acts && forall a <- acts[1..] :: a in acts;
      BarrenStays(Apply(s, acts[0]), acts[1..]);
    }
  }

  lemma {:induction false} RunThen(s: State, acts: seq<Action>, a: Action)
    requires Legal(s, acts) && Enabled(Run(s, acts), a)
    ensures Legal(s, acts + [a]) && Run(s, acts + [a]) == Apply(Run(s, acts), a)
    decreases |acts|
  {
    if acts == [] {
      var t := Apply(s, a);
      assert Legal(t, []) && Run(t, []) == t && (acts + [a])[1..] == [];
    } else {
      assert (acts + [a])[1..] == acts[1..] + [a];
      RunThen(Apply(s, acts[0]), acts[1..], a);
    }
  }

  /** The pass in progress can run to its end while the operator sleeps. */
  lemma PassCanComplete(s: State, before: seq<Action>) returns (acts: seq<Action>)
    requires Legal(s, before) && (forall a <- before :: Quiet(a))
    requires Run(s, before).pc.Sleeping? && CanComplete(Run(s, before))
    requires var pass := Run(s, before).pass.value; pass.accepted <= |BatchesOf(pass.launch)|
    ensures Legal(s, acts) && (forall a <- acts :: Quiet(a))
    ensures Run(s, acts).pc.Sleeping? && Run(s, acts).adapter == Done
    decreases |BatchesOf(Run(s, before).pass.value.launch)| - Run(s, before).pass.value.accepted
  {
    var p := Run(s, before).pass.value;
    if p.accepted < |BatchesOf(p.launch)| {
      RunThen(s, before, BatchAccepted);
      acts := PassCanComplete(s, before + [BatchAccepted]);
    } else {
      RunThen(s, before, PassCompletes);
      acts := before + [PassCompletes];
    }
  }

  lemma SleepsAfterEntry(s: State)
    requires s.pc.Outside? && s.cr == Some(Running)
    ensures Legal(Apply(s, Enter), [TestLoop])
    ensures var t := Run(Apply(s, Enter), [TestLoop]);
            t.pc.Sleeping? && t.known == Running && t.adapter == s.adapter && t.pass == s.pass
  {
    RunThen(Apply(s, Enter), [], TestLoop);
    assert [] + [TestLoop] == [TestLoop];
  }

  lemma ReadsDone(s: State, before: seq<Action>) returns (acts: seq<Action>)
    requires Legal(s, before) && Run(s, before).pc.Sleeping? && Run(s, before).adapter == Done
    ensures acts == before + [GetAnswered, TestLoop] && Legal(s, acts) && Run(s, acts).pc == Returned(Done)
  {
    RunThen(s, before, GetAnswered);
    RunThen(s, before + [GetAnswered], TestLoop);
    acts := before + [GetAnswered] + [TestLoop];
  }

  lemma QuietDone(s: State) returns (acts: seq<Action>)
    requires Inv(s) && s.pc.Outside? && s.cr == Some(Running) && (s.adapter == Done || CanComplete(s))
    ensures EndsDoneQuietly(s, acts)
  {
    var t := Apply(s, Enter);
    SleepsAfterEntry(s);
    acts := [TestLoop];
    if s.adapter != Done {
      acts := PassCanComplete(t, acts);
    }
    acts := ReadsDone(t, acts);
  }

  lemma NoQuietDone(s: State, acts: seq<Action>)
    requires Inv(s) && s.pc.Outside? && !(s.cr == Some(Running) && (s.adapter == Done || CanComplete(s)))
    ensures !EndsDoneQuietly(s, acts)
  {
    var t := Apply(s, Enter);
    assert Barren(t);
    if Legal(t, acts) && forall a <- acts :: Quiet(a) {
      BarrenStays(t, acts);
    }
  }

  /** An episode can end in done without any handler running during it exactly when the CR said
      running at its start and the adapter was done already or had a pass that can complete. */
  lemma QuietDoneExactly(s: State)
    requires Inv(s) && s.pc.Outside?
    ensures (exists acts :: EndsDoneQuietly(s, acts)) <==>
            s.cr == Some(Running) && (s.adapter == Done || CanComplete(s))
  {
    if s.cr == Some(Running) && (s.adapter == Done || CanComplete(s)) {
      var acts := QuietDone(s);
    } else {
      forall acts: seq<Action>
        ensures !EndsDoneQuietly(s, acts)
      {
        NoQuietDone(s, acts);
      }
    }
  }

  /** So it takes a CR that said running from the start, or an episode that crashed, lost its final write or
      failed to save, before another one can answer done without a handler of its own. */
  lemma QuietDoneTakesALoss(cr: Option<RecoveryState>, store: Store, before: seq<Action>, acts: seq<Action>)
    requires Legal(Init(cr, store), before) && EndsDoneQuietly(Run(Init(cr, store), before), acts)
    ensures RunningExplained(cr, Run(Init(cr, store), before).history)
  {
    var s := Run(Init(cr, store), before);
    RunKeepsInv(Init(cr, store), before);
    RunKeepsEnds(cr, Init(cr, store), before);
    QuietDoneExactly(s);
    assert s.cr == Some(Running);
  }

  /** That start is reachable after a finished episode, when the final write of the CR is lost: the
      next episode then answers done on the strength of the recovery before it. */
  lemma LeftOverDoneIsReachable() returns (acts: seq<Action>)
    ensures Legal(Init(Some(Done), map[]), acts)
    ensures var s := Run(Init(Some(Done), map[]), acts); s.pc.Outside? && s.cr == Some(Running) && s.adapter == Done
  {
    var s := Init(Some(Done), map[]);
    acts := [];
    RunThen(s, acts, Enter);
    acts := acts + [Enter];
    RunThen(s, acts, TestLoop);
    acts := acts + [TestLoop];
    RunThen(s, acts, PostAnswered([]));
    acts := acts + [PostAnswered([])];
    RunThen(s, acts, SaveRunning);
    acts := acts + [SaveRunning];
    RunThen(s, acts, PassCompletes);
    acts := acts + [PassCompletes];
    RunThen(s, acts, GetAnswered);
    acts := acts + [GetAnswered];
    RunThen(s, acts, TestLoop);
    acts := acts + [TestLoop];
    RunThen(s, acts, Leave(false));
    acts := acts + [Leave(false)];
  }
}
