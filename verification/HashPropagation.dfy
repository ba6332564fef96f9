/** How a changed OpenSearch secret reaches the deployments that use it: each reconciliation cycle
    annotates them with the new hash, and the operator remembers the hash only at the end of a cycle
    that succeeded. Any read, update or check of a cycle may fail, and a failed update may be applied. */
module HashPropagation {
  import opened Basics

  const SECRET := "secret.opensearch"

  /** A component with a deployment: the hashes it watches beside the OpenSearch secret, and hashes it
      only remembers. Monitoring has two of the first kind and one of the second, the others one. */
  datatype Component = Component(deployment: string, watched: seq<string>, remembered: seq<string>)

  datatype Update = Updated | Refused(applied: bool)

  /** What a cycle meets: the components that are switched on, the hash of the secret, the hashes of
      the other resources, how updates of deployments end, and whether the cycle's later steps succeed. */
  datatype Cycle = Cycle(
    components: seq<Component>,
    secret: Option<string>,
    read: map<string, string>,         // a missing name is a failed read
    updates: map<string, Update>,      // a missing deployment is not found
    ready: bool,
    configured: bool)

  type Annotations = map<string, string>

  datatype Store = Store(hashes: map<string, string>, annotations: map<string, Annotations>)

  /** Go's map read: a missing key is the empty string. */
  function Get(m: map<string, string>, key: string): string {
    if key in m then m[key] else ""
  }

  function AnnotationsOf(s: Store, deployment: string): Annotations {
    if deployment in s.annotations then s.annotations[deployment] else map[]
  }

  // ----- One component -----

  /** A known hash differs from the current one. */
  predicate Changed(s: Store, name: string, current: string) {
    Get(s.hashes, name) != "" && Get(s.hashes, name) != current
  }

  predicate Readable(c: Component, cycle: Cycle) {
    forall name <- c.watched :: name in cycle.read
  }

  predicate Storable(c: Component, cycle: Cycle) {
    forall name <- c.remembered :: name in cycle.read
  }

  predicate NeedsAnnotation(s: Store, c: Component, cycle: Cycle)
    requires Readable(c, cycle) && cycle.secret.Some?
  {
    Changed(s, SECRET, cycle.secret.value) || exists name <- c.watched :: Changed(s, name, cycle.read[name])
  }

  function NewAnnotations(c: Component, cycle: Cycle): Annotations
    requires Readable(c, cycle) && cycle.secret.Some?
  {
    map[SECRET := cycle.secret.value] + map name | name in c.watched :: cycle.read[name]
  }

  function Annotate(s: Store, c: Component, cycle: Cycle): Store
    requires Readable(c, cycle) && cycle.secret.Some?
  {
    s.(annotations := s.annotations[c.deployment := AnnotationsOf(s, c.deployment) + NewAnnotations(c, cycle)])
  }

  function Remember(s: Store, c: Component, cycle: Cycle): Store
    requires Readable(c, cycle) && Storable(c, cycle)
  {
    s.(hashes := s.hashes + map name | name in c.watched + c.remembered :: cycle.read[name])
  }

  datatype Outcome = Outcome(ok: bool, store: Store)

  function UpdateOf(c: Component, cycle: Cycle): Update {
    if c.deployment in cycle.updates then cycle.updates[c.deployment] else Refused(false)
  }

  /** The annotation, if one is needed. */
  function AfterAnnotation(s: Store, c: Component, cycle: Cycle): Outcome
    requires Readable(c, cycle) && cycle.secret.Some?
  {
    if !NeedsAnnotation(s, c, cycle) then Outcome(true, s)
    else
      match UpdateOf(c, cycle)
      case Updated => Outcome(true, Annotate(s, c, cycle))
      case Refused(applied) => Outcome(false, if applied then Annotate(s, c, cycle) else s)
  }

  function AfterComponent(s: Store, c: Component, cycle: Cycle): Outcome
    requires cycle.secret.Some?
  {
    if !Readable(c, cycle) then Outcome(false, s)
    else
      var annotated := AfterAnnotation(s, c, cycle);
      if annotated.ok && Storable(c, cycle) then Outcome(true, Remember(annotated.store, c, cycle))
      else Outcome(false, annotated.store)
  }

  // ----- A cycle -----

  /** The components in order, up to the first that fails. */
  function AfterComponents(s: Store, components: seq<Component>, cycle: Cycle): Outcome
    requires cycle.secret.Some?
    decreases |components|
  {
    if components == [] then Outcome(true, s)
    else
      var first := AfterComponent(s, components[0], cycle);
      if first.ok then AfterComponents(first.store, components[1..], cycle) else first
  }

  function AfterCycle(s: Store, cycle: Cycle): Outcome {
    if cycle.secret.None? then Outcome(false, s)
    else
      var reconciled := AfterComponents(s, cycle.components, cycle);
      if !reconciled.ok || !cycle.ready || !cycle.configured then Outcome(false, reconciled.store)
      else Outcome(true, reconciled.store.(hashes := reconciled.store.hashes[SECRET := cycle.secret.value]))
  }

  function Known(s: Store): string {
    Get(s.hashes, SECRET)
  }

  function Annotated(s: Store, deployment: string): string {
    Get(AnnotationsOf(s, deployment), SECRET)
  }

  /** No component watches the OpenSearch secret under its own hashes, and each has its own deployment
      and hashes. */
  predicate Separate(components: seq<Component>) {
    && (forall i | 0 <= i < |components| :: Plain(components[i]))
    && (forall i, j | 0 <= i < j < |components| ::
          && components[i].deployment != components[j].deployment
          && forall name <- components[j].watched ::
               name !in components[i].watched && name !in components[i].remembered)
  }

  predicate Plain(c: Component) {
    SECRET !in c.watched && SECRET !in c.remembered
  }

  lemma ComponentEffect(s: Store, c: Component, cycle: Cycle)
    requires cycle.secret.Some? && Plain(c)
    ensures var r := AfterComponent(s, c, cycle);
            && Known(r.store) == Known(s)
            && (forall d: string | d != c.deployment :: AnnotationsOf(r.store, d) == AnnotationsOf(s, d))
            && (r.ok ==> Readable(c, cycle))
            && (r.ok && NeedsAnnotation(s, c, cycle) ==> Annotated(r.store, c.deployment) == cycle.secret.value)
            && (r.ok && !NeedsAnnotation(s, c, cycle) ==>
                AnnotationsOf(r.store, c.deployment) == AnnotationsOf(s, c.deployment))
  {
  }

  /** A component that succeeds remembers all its hashes, and one that annotates passes on those it
      watches. */
  lemma ComponentRemembers(s: Store, c: Component, cycle: Cycle, name: string)
    requires cycle.secret.Some? && Plain(c) && AfterComponent(s, c, cycle).ok && name in c.watched + c.remembered
    ensures name in cycle.read && Get(AfterComponent(s, c, cycle).store.hashes, name) == cycle.read[name]
    ensures name in c.watched && NeedsAnnotation(s, c, cycle) ==>
              Get(AnnotationsOf(AfterComponent(s, c, cycle).store, c.deployment), name) == cycle.read[name]
  {
    assert Readable(c, cycle) && Storable(c, cycle);
  }

  /** Components that succeed leave alone the deployments and hashes of the others. */
  lemma {:induction false} OthersUntouched(s: Store, components: seq<Component>, cycle: Cycle, deployment: string)
    requires cycle.secret.Some? && (forall i | 0 <= i < |components| :: Plain(components[i]))
    requires forall i | 0 <= i < |components| :: components[i].deployment != deployment
    ensures AnnotationsOf(AfterComponents(s, components, cycle).store, deployment) == AnnotationsOf(s, deployment)
    decreases |components|
  {
    if components != [] {
      ComponentEffect(s, components[0], cycle);
      var first := AfterComponent(s, components[0], cycle);
      if first.ok {
        OthersUntouched(first.store, components[1..], cycle, deployment);
      }
    }
  }

  lemma {:induction false} KnownUntouched(s: Store, components: seq<Component>, cycle: Cycle)
    requires cycle.secret.Some? && (forall i | 0 <= i < |components| :: Plain(components[i]))
    ensures Known(AfterComponents(s, components, cycle).store) == Known(s)
    decreases |components|
  {
    if components != [] {
      ComponentEffect(s, components[0], cycle);
      var first := AfterComponent(s, components[0], cycle);
      if first.ok {
        KnownUntouched(first.store, components[1..], cycle);
      }
    }
  }

  /** What a component will do at its turn is settled before the cycle. */
  lemma NeedUnchanged(s: Store, c: Component, other: Component, cycle: Cycle)
    requires cycle.secret.Some? && Plain(c) && Readable(other, cycle)
    requires forall name <- other.watched :: name !in c.watched && name !in c.remembered
    ensures NeedsAnnotation(AfterComponent(s, c, cycle).store, other, cycle) == NeedsAnnotation(s, other, cycle)
  {
    var t := AfterComponent(s, c, cycle).store;
    assert Get(t.hashes, SECRET) == Get(s.hashes, SECRET);
    assert forall name <- other.watched :: Get(t.hashes, name) == Get(s.hashes, name);
  }

  lemma SeparateRest(components: seq<Component>)
    requires components != [] && Separate(components)
    ensures Separate(components[1..])
    ensures forall i | 0 <= i < |components[1..]| :: components[1..][i].deployment != components[0].deployment
  {
    assert forall i | 0 <= i < |components[1..]| :: components[1..][i] == components[i + 1];
  }

  lemma {:induction false} ComponentsSucceed(s: Store, components: seq<Component>, cycle: Cycle, k: nat)
    requires cycle.secret.Some? && Separate(components) && k < |components|
    requires AfterComponents(s, components, cycle).ok
    ensures Readable(components[k], cycle)
    ensures var t := AfterComponents(s, components, cycle).store;
            Annotated(t, components[k].deployment) ==
              if NeedsAnnotation(s, components[k], cycle) then cycle.secret.value
              else Annotated(s, components[k].deployment)
    decreases |components|
  {
    var c, rest := components[0], components[1..];
    var first := AfterComponent(s, c, cycle).store;
    SeparateRest(components);
    ComponentEffect(s, c, cycle);
    if k == 0 {
      OthersUntouched(first, rest, cycle, c.deployment);
    } else {
      ComponentsSucceed(first, rest, cycle, k - 1);
      NeedUnchanged(s, c, components[k], cycle);
    }
  }

  // ----- Over cycles -----

  /** All hashes of the component can be read, and its deployment can be updated if it must be. */
  predicate Succeeds(s: Store, c: Component, cycle: Cycle)
    requires cycle.secret.Some?
  {
    && (forall name <- c.watched + c.remembered :: name in cycle.read)
    && (NeedsAnnotation(s, c, cycle) ==> c.deployment in cycle.updates && cycle.updates[c.deployment].Updated?)
  }

  lemma ComponentSucceedsExactly(s: Store, c: Component, cycle: Cycle)
    requires cycle.secret.Some?
    ensures AfterComponent(s, c, cycle).ok <==> Succeeds(s, c, cycle)
  {
    assert (forall name <- c.watched + c.remembered :: name in cycle.read) <==>
           Readable(c, cycle) && Storable(c, cycle);
  }

  /** A refused update keeps all hashes, and annotates the deployment exactly if it was applied all the same; that
      of a deployment that is not there never is. */
  lemma RefusedUpdateEffect(s: Store, c: Component, cycle: Cycle)
    requires cycle.secret.Some? && Readable(c, cycle) && NeedsAnnotation(s, c, cycle)
    requires c.deployment in cycle.updates ==> cycle.updates[c.deployment].Refused?
    ensures var r := AfterComponent(s, c, cycle); var before := AnnotationsOf(s, c.deployment);
            && !r.ok && r.store.hashes == s.hashes
            && AnnotationsOf(r.store, c.deployment)
                 == if c.deployment in cycle.updates && cycle.updates[c.deployment].applied
                    then before + NewAnnotations(c, cycle) else before
  {
  }

  lemma SuccessUnchanged(s: Store, c: Component, other: Component, cycle: Cycle)
    requires cycle.secret.Some? && Plain(c)
    requires forall name <- other.watched :: name !in c.watched && name !in c.remembered
    ensures Succeeds(AfterComponent(s, c, cycle).store, other, cycle) <==> Succeeds(s, other, cycle)
  {
    if Readable(other, cycle) {
      NeedUnchanged(s, c, other, cycle);
    }
  }

  predicate AllSucceed(s: Store, components: seq<Component>, cycle: Cycle)
    requires cycle.secret.Some?
  {
    forall k | 0 <= k < |components| :: Succeeds(s, components[k], cycle)
  }

  lemma {:induction false} ComponentsSucceedExactly(s: Store, components: seq<Component>, cycle: Cycle)
    requires cycle.secret.Some? && Separate(components)
    ensures AfterComponents(s, components, cycle).ok <==> AllSucceed(s, components, cycle)
    decreases |components|
  {
    if components != [] {
      var c, rest := components[0], components[1..];
      SeparateRest(components);
      ComponentSucceedsExactly(s, c, cycle);
      var first := AfterComponent(s, c, cycle).store;
      ComponentsSucceedExactly(first, rest, cycle);
      forall k | 0 <= k < |rest|
        ensures Succeeds(first, rest[k], cycle) <==> Succeeds(s, components[k + 1], cycle)
      {
        SuccessUnchanged(s, c, components[k + 1], cycle);
      }
      assert forall k | 0 < k < |components| :: components[k] == rest[k - 1];
    }
  }

  /** A cycle succeeds exactly when the secret can be read, every component succeeds on what was stored before
      the cycle, the service becomes ready and its configuration succeeds. */
  lemma CycleSucceedsExactly(s: Store, cycle: Cycle)
    requires Separate(cycle.components)
    ensures AfterCycle(s, cycle).ok <==>
            cycle.secret.Some? && AllSucceed(s, cycle.components, cycle) && cycle.ready && cycle.configured
    ensures !cycle.ready || !cycle.configured ==>
              !AfterCycle(s, cycle).ok && Known(AfterCycle(s, cycle).store) == Known(s)
  {
    KnownMovesOnlyOnSuccess(s, cycle);
    if cycle.secret.Some? {
      ComponentsSucceedExactly(s, cycle.components, cycle);
    }
  }

  /** A component that fails keeps the cycle from the components behind it. */
  lemma {:induction false} FailureStops(s: Store, components: seq<Component>, cycle: Cycle, k: nat, j: nat)
    requires cycle.secret.Some? && Separate(components) && k < j < |components|
    requires !Succeeds(s, components[k], cycle)
    ensures var d := components[j].deployment;
            AnnotationsOf(AfterComponents(s, components, cycle).store, d) == AnnotationsOf(s, d)
    decreases |components|
  {
    var c, rest := components[0], components[1..];
    SeparateRest(components);
    ComponentSucceedsExactly(s, c, cycle);
    ComponentEffect(s, c, cycle);
    if k > 0 && Succeeds(s, c, cycle) {
      SuccessUnchanged(s, c, components[k], cycle);
      FailureStops(AfterComponent(s, c, cycle).store, rest, cycle, k - 1, j - 1);
    }
  }

  /** A failed cycle leaves the known hash; a successful one learns the current hash. */
  lemma KnownMovesOnlyOnSuccess(s: Store, cycle: Cycle)
    requires Separate(cycle.components)
    ensures var r := AfterCycle(s, cycle);
            if r.ok then cycle.secret == Some(Known(r.store)) else Known(r.store) == Known(s)
  {
    if cycle.secret.Some? {
      KnownUntouched(s, cycle.components, cycle);
    }
  }

  /** When the known hash moves from a nonempty value to another one, every component that is switched
      on was annotated with the new hash in that same cycle. */
  lemma CommitMeansAnnotated(s: Store, cycle: Cycle, k: nat)
    requires Separate(cycle.components) && k < |cycle.components|
    requires Known(s) != "" && Known(AfterCycle(s, cycle).store) != Known(s)
    ensures AfterCycle(s, cycle).ok
    ensures Annotated(AfterCycle(s, cycle).store, cycle.components[k].deployment) == Known(AfterCycle(s, cycle).store)
  {
    KnownMovesOnlyOnSuccess(s, cycle);
    ComponentsSucceed(s, cycle.components, cycle, k);
  }

  /** After a successful cycle a deployment carries the current hash exactly when a known hash of its
      component had changed or it carried that hash already. */
  lemma CurrentExactly(s: Store, cycle: Cycle, k: nat)
    requires Separate(cycle.components) && k < |cycle.components| && AfterCycle(s, cycle).ok
    ensures Readable(cycle.components[k], cycle)
    ensures var t := AfterCycle(s, cycle).store; var c := cycle.components[k];
            Annotated(t, c.deployment) == Known(t) <==>
            NeedsAnnotation(s, c, cycle) || Annotated(s, c.deployment) == cycle.secret.value
  {
    KnownMovesOnlyOnSuccess(s, cycle);
    ComponentsSucceed(s, cycle.components, cycle, k);
  }

  // ----- Stale annotations -----

  function Run(s: Store, cycles: seq<Cycle>): Store {
    if cycles == [] then s else AfterCycle(Run(s, cycles[..|cycles| - 1]), cycles[|cycles| - 1]).store
  }

  /** The cycle replaces a known hash by a different one. */
  predicate Moves(s: Store, cycle: Cycle) {
    AfterCycle(s, cycle).ok && Known(s) != "" && cycle.secret.value != Known(s)
  }

  /** Neither cycle j nor a later one moves the known hash. */
  predicate NoMoveSince(s: Store, cycles: seq<Cycle>, j: nat) {
    forall i | j <= i < |cycles| :: !Moves(Run(s, cycles[..i]), cycles[i])
  }

  /** The same components in every cycle, and hashes that are not empty. */
  predicate Steady(cycles: seq<Cycle>, components: seq<Component>) {
    forall i | 0 <= i < |cycles| :: cycles[i].components == components && cycles[i].secret != Some("")
  }

  lemma NoMoveSnoc(s: Store, cycles: seq<Cycle>, j: nat)
    requires cycles != [] && j < |cycles|
    ensures var front := cycles[..|cycles| - 1];
            NoMoveSince(s, cycles, j) <==> NoMoveSince(s, front, j) && !Moves(Run(s, front), cycles[|cycles| - 1])
  {
    var n := |cycles| - 1;
    assert forall i | 0 <= i <= n :: cycles[..n][..i] == cycles[..i];
  }

  lemma {:induction false} OldOrNew(s: Store, components: seq<Component>, cycle: Cycle, deployment: string)
    requires cycle.secret.Some? && (forall i | 0 <= i < |components| :: Plain(components[i]))
    ensures var now := Annotated(AfterComponents(s, components, cycle).store, deployment);
            now in {Annotated(s, deployment), cycle.secret.value}
    decreases |components|
  {
    if components != [] {
      var first := AfterComponent(s, components[0], cycle);
      assert Annotated(first.store, deployment) in {Annotated(s, deployment), cycle.secret.value};
      if first.ok {
        OldOrNew(first.store, components[1..], cycle, deployment);
      }
    }
  }

  lemma CycleOldOrNew(s: Store, cycle: Cycle, k: nat)
    requires Separate(cycle.components) && k < |cycle.components| && cycle.secret != Some("")
    ensures var t := AfterCycle(s, cycle).store; var d := cycle.components[k].deployment;
            && (Annotated(t, d) == Annotated(s, d) || cycle.secret == Some(Annotated(t, d)))
            && (Moves(s, cycle) ==> Annotated(t, d) == Known(t))
            && (!Moves(s, cycle) && Known(s) != "" ==> Known(t) == Known(s))
            && (Known(s) != "" ==> Known(t) != "")
  {
    KnownMovesOnlyOnSuccess(s, cycle);
    if cycle.secret.Some? {
      OldOrNew(s, cycle.components, cycle, cycle.components[k].deployment);
      if Moves(s, cycle) {
        CommitMeansAnnotated(s, cycle, k);
      }
    }
  }

  /** Cycle j saw the hash a, and the known hash has not moved since. */
  predicate SeenUnmoved(s: Store, cycles: seq<Cycle>, j: nat, a: string) {
    j < |cycles| && cycles[j].secret == Some(a) && NoMoveSince(s, cycles, j)
  }

  /** The hash is the first one, the known one, or one seen by a cycle since which the known hash has
      not moved. */
  ghost predicate Accounted(s: Store, cycles: seq<Cycle>, first: string, now: string) {
    || now == first
    || (now == Known(Run(s, cycles)) && now != "")
    || exists j: nat :: SeenUnmoved(s, cycles, j, now)
  }

  lemma SeenSnoc(s: Store, cycles: seq<Cycle>, j: nat, a: string)
    requires cycles != [] && !Moves(Run(s, cycles[..|cycles| - 1]), cycles[|cycles| - 1])
    requires SeenUnmoved(s, cycles[..|cycles| - 1], j, a) || (j == |cycles| - 1 && cycles[j].secret == Some(a))
    ensures SeenUnmoved(s, cycles, j, a)
  {
    NoMoveSnoc(s, cycles, j);
  }

  lemma AccountedSnoc(s: Store, cycles: seq<Cycle>, first: string, now: string)
    requires cycles != [] && !Moves(Run(s, cycles[..|cycles| - 1]), cycles[|cycles| - 1])
    requires Known(Run(s, cycles[..|cycles| - 1])) in {"", Known(Run(s, cycles))}
    requires Accounted(s, cycles[..|cycles| - 1], first, now)
    ensures Accounted(s, cycles, first, now)
  {
    var front := cycles[..|cycles| - 1];
    if j: nat :| SeenUnmoved(s, front, j, now) {
      SeenSnoc(s, cycles, j, now);
    }
  }

  /** Over any sequence of failing and succeeding cycles, the hash a deployment carries is accounted
      for. */
  lemma {:induction false} AnnotationAccountedFor(s: Store, cycles: seq<Cycle>, components: seq<Component>, k: nat)
    requires Separate(components) && Steady(cycles, components) && k < |components|
    ensures var d := components[k].deployment;
            Accounted(s, cycles, Annotated(s, d), Annotated(Run(s, cycles), d))
    decreases |cycles|
  {
    if cycles != [] {
      var n := |cycles| - 1;
      var front, cycle, d := cycles[..n], cycles[n], components[k].deployment;
      var before := Run(s, front);
      AnnotationAccountedFor(s, front, components, k);
      CycleOldOrNew(before, cycle, k);
      if Moves(before, cycle) {
        KnownNotEmpty(before, cycle);
      } else {
        var now := Annotated(Run(s, cycles), d);
        if now == Annotated(before, d) {
          AccountedSnoc(s, cycles, Annotated(s, d), now);
        } else {
          SeenSnoc(s, cycles, n, now);
        }
      }
    }
  }

  lemma KnownNotEmpty(s: Store, cycle: Cycle)
    requires Separate(cycle.components) && cycle.secret != Some("") && Known(s) != ""
    ensures Known(AfterCycle(s, cycle).store) != ""
  {
    KnownMovesOnlyOnSuccess(s, cycle);
  }

  lemma {:induction false} KnownNotEmptyInRun(s: Store, cycles: seq<Cycle>, components: seq<Component>)
    requires Separate(components) && Steady(cycles, components) && Known(s) != ""
    ensures Known(Run(s, cycles)) != ""
    decreases |cycles|
  {
    if cycles != [] {
      KnownNotEmptyInRun(s, cycles[..|cycles| - 1], components);
      KnownNotEmpty(Run(s, cycles[..|cycles| - 1]), cycles[|cycles| - 1]);
    }
  }

  lemma UnmovedStep(s: Store, cycles: seq<Cycle>, components: seq<Component>, i: nat)
    requires Separate(components) && Steady(cycles, components) && i < |cycles|
    requires Known(Run(s, cycles[..i])) != "" && !Moves(Run(s, cycles[..i]), cycles[i])
    ensures Known(Run(s, cycles[..i + 1])) == Known(Run(s, cycles[..i]))
  {
    assert cycles[..i + 1][..i] == cycles[..i];
    KnownMovesOnlyOnSuccess(Run(s, cycles[..i]), cycles[i]);
  }

  lemma {:induction false} UnmovedIsKnown(s: Store, cycles: seq<Cycle>, components: seq<Component>, j: nat, i: nat)
    requires Separate(components) && Steady(cycles, components) && j <= i <= |cycles| && NoMoveSince(s, cycles, j)
    requires Known(s) != ""
    ensures Known(Run(s, cycles[..i])) == Known(Run(s, cycles[..j]))
    decreases i
  {
    if j < i {
      UnmovedIsKnown(s, cycles, components, j, i - 1);
      KnownNotEmptyInRun(s, cycles[..i - 1], components);
      UnmovedStep(s, cycles, components, i - 1);
    }
  }

  /** Once a hash is known, an annotation can be out of date only after the secret was changed back:
      when the last cycle of a run succeeds and a deployment carries neither the current hash nor its
      first one, then an earlier cycle saw the hash it carries while the known hash was the current one. */
  lemma StaleOnlyAfterReversal(s: Store, cycles: seq<Cycle>, components: seq<Component>, k: nat)
    requires Separate(components) && Steady(cycles, components) && k < |components| && Known(s) != "" && cycles != []
    requires AfterCycle(Run(s, cycles[..|cycles| - 1]), cycles[|cycles| - 1]).ok
    ensures var last := cycles[|cycles| - 1];
            var now := Annotated(Run(s, cycles), components[k].deployment);
            last.secret.Some? &&
            (now != last.secret.value && now != Annotated(s, components[k].deployment) ==>
               exists j: nat | j < |cycles| - 1 ::
                 cycles[j].secret == Some(now) && Known(Run(s, cycles[..j])) == last.secret.value)
  {
    var n := |cycles| - 1;
    var now := Annotated(Run(s, cycles), components[k].deployment);
    KnownMovesOnlyOnSuccess(Run(s, cycles[..n]), cycles[n]);
    if now != cycles[n].secret.value && now != Annotated(s, components[k].deployment) {
      var j := SeenWhileKnown(s, cycles, components, k);
    }
  }

  lemma SeenWhileKnown(s: Store, cycles: seq<Cycle>, components: seq<Component>, k: nat) returns (j: nat)
    requires Separate(components) && Steady(cycles, components) && k < |components| && Known(s) != ""
    requires var now := Annotated(Run(s, cycles), components[k].deployment);
             now != Known(Run(s, cycles)) && now != Annotated(s, components[k].deployment)
    ensures j < |cycles| && cycles[j].secret == Some(Annotated(Run(s, cycles), components[k].deployment))
    ensures Known(Run(s, cycles[..j])) == Known(Run(s, cycles))
  {
    AnnotationAccountedFor(s, cycles, components, k);
    j :| SeenUnmoved(s, cycles, j, Annotated(Run(s, cycles), components[k].deployment));
    UnmovedIsKnown(s, cycles, components, j, |cycles|);
    assert cycles[..|cycles|] == cycles;
  }

  /** While no hash is known it takes no reversal: a watched hash changes, the update is made but the
      cycle fails, and the next cycle learns a third hash without annotating. */
  lemma UnknownHashLeavesStaleAnnotation(first: string, second: string, third: string)
    requires first != "" && second != "" && third != "" && second != third
    ensures var c := Component("curator", ["w"], []);
            var s := Store(map["w" := "old"], map["curator" := map[SECRET := first]]);
            var failing := Cycle([c], Some(second), map["w" := "new"], map["curator" := Updated], false, true);
            var learning := failing.(secret := Some(third), ready := true);
            var t := AfterCycle(s, failing).store;
            && Known(s) == "" && !AfterCycle(s, failing).ok && AfterCycle(t, learning).ok
            && Known(AfterCycle(t, learning).store) == third
            && Annotated(AfterCycle(t, learning).store, "curator") == second
  {
    var c := Component("curator", ["w"], []);
    assert [c][1..] == [];
    var s := Store(map["w" := "old"], map["curator" := map[SECRET := first]]);
    var failing := Cycle([c], Some(second), map["w" := "new"], map["curator" := Updated], false, true);
    assert "w" in c.watched && Changed(s, "w", "new");
    ComponentEffect(s, c, failing);
    ComponentRemembers(s, c, failing, "w");
    var t := AfterComponent(s, c, failing).store;
    assert AfterComponents(s, [c], failing) == AfterComponent(s, c, failing);
    var learning := failing.(secret := Some(third), ready := true);
    ComponentEffect(t, c, learning);
    assert !NeedsAnnotation(t, c, learning);
    assert AfterComponents(t, [c], learning) == AfterComponent(t, c, learning);
  }

  /** It does happen: the second of two updates is refused, then the secret is changed back. The first
      deployment keeps the abandoned hash although the next cycle succeeds. */
  lemma ReversalLeavesStaleAnnotation(before: string, abandoned: string)
    requires before != "" && abandoned != "" && before != abandoned
    ensures var components := [Component("curator", [], []), Component("dashboards", [], [])];
            var first := map[SECRET := before];
            var s := Store(first, map["curator" := first, "dashboards" := first]);
            var failing := Cycle(components, Some(abandoned), map[], map["curator" := Updated], true, true);
            var reverted := failing.(secret := Some(before));
            var t := AfterCycle(s, failing).store;
            && !AfterCycle(s, failing).ok && AfterCycle(t, reverted).ok
            && Known(AfterCycle(t, reverted).store) == before
            && Annotated(AfterCycle(t, reverted).store, "curator") == abandoned
  {
    assert [Component("curator", [], []), Component("dashboards", [], [])][1..] == [Component("dashboards", [], [])];
  }

  // ----- The operator -----

  class Operator {
    var hashes: map<string, string>
    var annotations: map<string, Annotations>    // of the deployments in the cluster

    function State(): Store
      reads this
    {
      Store(hashes, annotations)
    }

    constructor (annotations: map<string, Annotations>)
      ensures State() == Store(map[], annotations)
    {
      this.hashes, this.annotations := map[], annotations;
    }

    method ReconcileComponent(c: Component, cycle: Cycle) returns (ok: bool)
      requires cycle.secret.Some?
      modifies this
      ensures Outcome(ok, State()) == AfterComponent(old(State()), c, cycle)
    {
      if !Readable(c, cycle) {
        return false;
      }
      if NeedsAnnotation(State(), c, cycle) {
        var update := UpdateOf(c, cycle);
        if update.Updated? || update.applied {
          annotations := annotations[c.deployment := AnnotationsOf(State(), c.deployment) + NewAnnotations(c, cycle)];
        }
        if !update.Updated? {
          return false;
        }
      }
      if !Storable(c, cycle) {
        return false;
      }
      hashes := Remember(State(), c, cycle).hashes;
      return true;
    }

    /** One reconciliation cycle. */
    method Reconcile(cycle: Cycle) returns (ok: bool)
      modifies this
      ensures Outcome(ok, State()) == AfterCycle(old(State()), cycle)
    {
      if cycle.secret.None? {
        return false;
      }
      var i := 0;
      while i < |cycle.components|
        invariant 0 <= i <= |cycle.components|
        invariant AfterComponents(State(), cycle.components[i..], cycle)
                  == AfterComponents(old(State()), cycle.components, cycle)
      {
        assert cycle.components[i..][0] == cycle.components[i]
          && cycle.components[i..][1..] == cycle.components[i + 1..];
        var done := ReconcileComponent(cycle.components[i], cycle);
        if !done {
          return false;
        }
        i := i + 1;
      }
      if !cycle.ready || !cycle.configured {
        return false;
      }
      hashes := hashes[SECRET := cycle.secret.value];
      return true;
    }
  }
}
