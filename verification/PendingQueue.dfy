/** The queue of nodes waiting for election, and the one call that breaks it.

    `unregister_node` removes the inactive record but not the pending entry.  When its
    node is pending, the entry is orphaned, and from the entry's epoch on every epoch
    change panics, for good. */
module PendingQueue {
  import opened Collections
  import opened Committee
  import opened Mainchain
  import opened Staking
  import opened Conservation
  import opened Lifecycle

  /** Every pending account has an inactive record. */
  ghost predicate QueueSound(r: Registry) {
    forall a :: a in r.pending.vals ==> a in r.inactive
  }

  lemma {:induction false} MigrateKeepsQueue(r: Registry, due: seq<AccountId>)
    requires QueueSound(r) && Migrate(r, due).Some?
    ensures QueueSound(Migrate(r, due).value)
    decreases |due|
  {
    if due != [] { MigrateKeepsQueue(Activate(r, due[0]), due[1..]); }
  }

  lemma EpochKeepsQueue(c: Crypto, s: State, env: Env)
    requires QueueSound(s.registry) && NextEpoch(c, s, env).Some?
    ensures QueueSound(NextEpoch(c, s, env).value.registry)
  {
    var due := Due(s.registry.pending.keys, s.registry.pending.vals, env.Epoch());
    if Migrate(s.registry, due).Some? { MigrateKeepsQueue(s.registry, due); }
  }

  lemma FileKeepsQueue(r: Registry, config: Config, epoch: nat, a: AccountId, node: Node)
    requires QueueSound(r) && FileNode(r, config, epoch, a, node).Some?
    ensures QueueSound(FileNode(r, config, epoch, a, node).value)
  {
  }

  ghost predicate UnregistersPending(s: State, step: Step) {
    && step.call.UnregisterNode? && step.call.key in s.registry.byEd25519
    && s.registry.byEd25519[step.call.key] in s.registry.pending.vals
  }

  lemma BalanceUpdateKeepsQueue(c: Crypto, s: State, step: Step)
    requires QueueSound(s.registry) && IsBalanceUpdate(step.call) && Apply(c, s, step).Some?
    ensures QueueSound(Apply(c, s, step).value.registry)
  {
    var node, node' := UpdateMoves(c, s, step);
    FileKeepsQueue(s.registry, s.config, step.env.Epoch(), s.registry.byEd25519[step.call.key], node');
  }

  lemma OtherStepQueue(c: Crypto, s: State, step: Step)
    requires QueueSound(s.registry) && !IsBalanceUpdate(step.call) && !IsEpochStep(step.call) && Apply(c, s, step).Some?
    ensures QueueSound(Apply(c, s, step).value.registry) <==> !UnregistersPending(s, step)
  {
    if step.call.UnregisterNode? {
      assert s.registry.byEd25519[step.call.key] !in Apply(c, s, step).value.registry.inactive;
    }
  }

  /** Unregistering a pending node is the only step that breaks the queue. */
  lemma StepKeepsQueueExactly(c: Crypto, s: State, step: Step)
    requires QueueSound(s.registry) && Apply(c, s, step).Some?
    ensures QueueSound(Apply(c, s, step).value.registry) <==> !UnregistersPending(s, step)
  {
    if IsBalanceUpdate(step.call) {
      BalanceUpdateKeepsQueue(c, s, step);
    } else if IsEpochStep(step.call) {
      EpochStepIs(c, s, step);
      EpochKeepsQueue(c, s, step.env);
    } else {
      OtherStepQueue(c, s, step);
    }
  }

  /** Over every run the queue is sound throughout exactly when no pending node was
      unregistered. */
  lemma {:induction false} RunKeepsQueueExactly(c: Crypto, h: History, i: nat)
    requires IsRun(c, h) && i <= |h.steps| && QueueSound(h.states[0].registry)
    ensures (forall j :: 0 <= j <= i ==> QueueSound(h.states[j].registry))
       <==> (forall j :: 0 <= j < i && h.accepted[j] ==> !UnregistersPending(h.states[j], h.steps[j]))
  {
    if i > 0 {
      RunKeepsQueueExactly(c, h, i - 1);
      if QueueSound(h.states[i - 1].registry) { LinkKeepsQueue(c, h, i - 1); }
    }
  }

  lemma LinkKeepsQueue(c: Crypto, h: History, i: nat)
    requires IsRun(c, h) && i < |h.steps| && QueueSound(h.states[i].registry)
    ensures QueueSound(h.states[i + 1].registry) <==> !(h.accepted[i] && UnregistersPending(h.states[i], h.steps[i]))
  {
    assert Link(c, h, i);
    if h.accepted[i] { StepKeepsQueueExactly(c, h.states[i], h.steps[i]); }
  }

  /** The accounts whose pending epoch has come. */
  ghost function DueSet(r: Registry, epoch: nat): set<AccountId> {
    set a | a in r.pending.vals && r.pending.vals[a] <= epoch
  }

  lemma DueIsDueSet(r: Registry, epoch: nat)
    requires r.pending.Ok()
    ensures Elems(Due(r.pending.keys, r.pending.vals, epoch)) == DueSet(r, epoch)
  {
  }

  lemma SameRecords(inactive: map<AccountId, Node>, due: seq<AccountId>, moved: set<AccountId>)
    requires Elems(due) == moved && moved <= inactive.Keys
    ensures forall a :: a in due ==> a in moved
    ensures (map a | a in due :: inactive[a]) == (map a | a in moved :: inactive[a])
  {
    assert forall a :: a in due <==> a in Elems(due);
  }

  /** With a sound queue the migration of an epoch change always goes through, and moves
      exactly the pending nodes whose epoch has come, with their records. */
  lemma EpochMigratesExactly(r: Registry, epoch: nat)
    requires Ordered(r) && QueueSound(r)
    ensures var r', moved := Migrate(r, Due(r.pending.keys, r.pending.vals, epoch)), DueSet(r, epoch);
            && r'.Some?
            && r'.value.active.vals == r.active.vals + (map a | a in moved :: r.inactive[a])
            && r'.value.inactive == r.inactive - moved
            && r'.value.pending.vals == r.pending.vals - moved
  {
    var due := Due(r.pending.keys, r.pending.vals, epoch);
    DueIsDueSet(r, epoch);
    DueNoDup(r.pending.keys, r.pending.vals, epoch);
    SameRecords(r.inactive, due, DueSet(r, epoch));
    MigrateRuns(r, due);
    MigrateMovesExactly(r, due);
  }

  // ----- orphaned entries

  /** A pending entry for epoch `e` whose node is gone while its key stays taken. */
  ghost predicate Orphan(r: Registry, a: AccountId, e: nat, keyOf: KeyOf) {
    a in r.pending.vals && r.pending.vals[a] == e && NodeOf(r, a).None? && keyOf(a) in r.byEd25519
  }

  lemma OrphanStopsEpoch(c: Crypto, s: State, env: Env, a: AccountId, e: nat, keyOf: KeyOf)
    requires Ordered(s.registry) && Orphan(s.registry, a, e, keyOf)
    requires env.Epoch() >= e && env.Epoch() > s.schedule.lastProcessedEpoch
    ensures NextEpoch(c, s, env) == None
  {
    var due := Due(s.registry.pending.keys, s.registry.pending.vals, env.Epoch());
    DueNoDup(s.registry.pending.keys, s.registry.pending.vals, env.Epoch());
    MigrateRuns(s.registry, due);
    assert a in due;
  }

  lemma {:induction false} MigrateKeepsOrphan(r: Registry, due: seq<AccountId>, a: AccountId, e: nat, keyOf: KeyOf)
    requires Orphan(r, a, e, keyOf) && Migrate(r, due).Some?
    ensures Orphan(Migrate(r, due).value, a, e, keyOf)
    decreases |due|
  {
    if due != [] { MigrateKeepsOrphan(Activate(r, due[0]), due[1..], a, e, keyOf); }
  }

  lemma EpochKeepsOrphan(c: Crypto, s: State, env: Env, a: AccountId, e: nat, keyOf: KeyOf)
    requires Orphan(s.registry, a, e, keyOf) && NextEpoch(c, s, env).Some?
    ensures Orphan(NextEpoch(c, s, env).value.registry, a, e, keyOf)
  {
    var due := Due(s.registry.pending.keys, s.registry.pending.vals, env.Epoch());
    if Migrate(s.registry, due).Some? { MigrateKeepsOrphan(s.registry, due, a, e, keyOf); }
  }

  lemma FileKeepsOrphan(r: Registry, config: Config, epoch: nat, b: AccountId, node: Node, a: AccountId, e: nat, keyOf: KeyOf)
    requires Orphan(r, a, e, keyOf) && b != a && FileNode(r, config, epoch, b, node).Some?
    ensures Orphan(FileNode(r, config, epoch, b, node).value, a, e, keyOf)
  {
  }

  lemma BalanceUpdateKeepsOrphan(c: Crypto, s: State, step: Step, a: AccountId, e: nat, keyOf: KeyOf)
    requires Orphan(s.registry, a, e, keyOf) && IsBalanceUpdate(step.call) && Apply(c, s, step).Some?
    ensures Orphan(Apply(c, s, step).value.registry, a, e, keyOf)
  {
    var node, node' := UpdateMoves(c, s, step);
    FileKeepsOrphan(s.registry, s.config, step.env.Epoch(), s.registry.byEd25519[step.call.key], node', a, e, keyOf);
  }

  lemma OtherStepKeepsOrphan(c: Crypto, s: State, step: Step, a: AccountId, e: nat, keyOf: KeyOf)
    requires Orphan(s.registry, a, e, keyOf) && SignsWithOwnKey(step, keyOf) && Apply(c, s, step).Some?
    requires !IsBalanceUpdate(step.call) && !IsEpochStep(step.call)
    ensures Orphan(Apply(c, s, step).value.registry, a, e, keyOf)
  {
    match step.call
    case RegisterNode(_, _, _) => assert step.env.signer != a;
    case UnregisterNode(_) =>
    case UpdateNode(_) => assert step.env.signer != a;
    case _ =>
  }

  lemma StepKeepsOrphan(c: Crypto, s: State, step: Step, a: AccountId, e: nat, keyOf: KeyOf)
    requires Orphan(s.registry, a, e, keyOf) && SignsWithOwnKey(step, keyOf) && Apply(c, s, step).Some?
    ensures Orphan(Apply(c, s, step).value.registry, a, e, keyOf)
  {
    if IsBalanceUpdate(step.call) {
      BalanceUpdateKeepsOrphan(c, s, step, a, e, keyOf);
    } else if IsEpochStep(step.call) {
      EpochStepIs(c, s, step);
      EpochKeepsOrphan(c, s, step.env, a, e, keyOf);
    } else {
      OtherStepKeepsOrphan(c, s, step, a, e, keyOf);
    }
  }

  lemma LinkKeepsOrphan(c: Crypto, h: History, i: nat, a: AccountId, e: nat, keyOf: KeyOf)
    requires IsRun(c, h) && OneKeyPerAccount(h.steps, keyOf) && i < |h.steps| && Orphan(h.states[i].registry, a, e, keyOf)
    ensures Orphan(h.states[i + 1].registry, a, e, keyOf)
  {
    assert Link(c, h, i);
    if h.accepted[i] { StepKeepsOrphan(c, h.states[i], h.steps[i], a, e, keyOf); }
  }

  lemma {:induction false} OrphanStays(c: Crypto, h: History, i: nat, j: nat, a: AccountId, e: nat, keyOf: KeyOf)
    requires IsRun(c, h) && OneKeyPerAccount(h.steps, keyOf) && i <= j <= |h.steps| && Orphan(h.states[i].registry, a, e, keyOf)
    ensures Orphan(h.states[j].registry, a, e, keyOf)
    decreases j - i
  {
    if i < j {
      LinkKeepsOrphan(c, h, i, a, e, keyOf);
      OrphanStays(c, h, i + 1, j, a, e, keyOf);
    }
  }

  /** Unregistering a pending node orphans its entry. */
  lemma UnregisterOrphans(c: Crypto, s: State, step: Step, keyOf: KeyOf)
    requires Inv(s, keyOf) && UnregistersPending(s, step) && Apply(c, s, step).Some?
    ensures var a := s.registry.byEd25519[step.call.key];
            Orphan(Apply(c, s, step).value.registry, a, s.registry.pending.vals[a], keyOf)
  {
  }

  /** Once a pending node has been unregistered, no later call of the run processes the
      epoch for which it was queued, or any epoch after that. */
  lemma UnregisterHaltsEpochs(c: Crypto, h: History, i: nat, j: nat, keyOf: KeyOf)
    requires IsRun(c, h) && OneKeyPerAccount(h.steps, keyOf) && Inv(h.states[0], keyOf) && Ordered(h.states[0].registry)
    requires i < j < |h.steps| && h.accepted[i] && UnregistersPending(h.states[i], h.steps[i]) && IsEpochStep(h.steps[j].call)
    requires var r := h.states[i].registry;
             h.steps[j].env.Epoch() >= r.pending.vals[r.byEd25519[h.steps[i].call.key]]
    requires h.steps[j].env.Epoch() > h.states[j].schedule.lastProcessedEpoch
    ensures !h.accepted[j] && h.states[j + 1] == h.states[j]
  {
    var r := h.states[i].registry;
    var a := r.byEd25519[h.steps[i].call.key];
    RunKeepsInv(c, h, i, keyOf);
    LinkOrphans(c, h, i, keyOf);
    OrphanHaltsEpochs(c, h, i + 1, j, a, r.pending.vals[a], keyOf);
  }

  lemma LinkOrphans(c: Crypto, h: History, i: nat, keyOf: KeyOf)
    requires IsRun(c, h) && i < |h.steps| && Inv(h.states[i], keyOf)
    requires h.accepted[i] && UnregistersPending(h.states[i], h.steps[i])
    ensures var r := h.states[i].registry;
            var a := r.byEd25519[h.steps[i].call.key];
            Orphan(h.states[i + 1].registry, a, r.pending.vals[a], keyOf)
  {
    assert Link(c, h, i);
    UnregisterOrphans(c, h.states[i], h.steps[i], keyOf);
  }

  lemma OrphanHaltsEpochs(c: Crypto, h: History, i: nat, j: nat, a: AccountId, e: nat, keyOf: KeyOf)
    requires IsRun(c, h) && OneKeyPerAccount(h.steps, keyOf) && Ordered(h.states[0].registry)
    requires i <= j < |h.steps| && Orphan(h.states[i].registry, a, e, keyOf)
    requires IsEpochStep(h.steps[j].call)
    requires h.steps[j].env.Epoch() >= e && h.steps[j].env.Epoch() > h.states[j].schedule.lastProcessedEpoch
    ensures !h.accepted[j] && h.states[j + 1] == h.states[j]
  {
    OrphanStays(c, h, i, j, a, e, keyOf);
    RunKeepsOrdered(c, h, j);
    OrphanStopsEpoch(c, h.states[j], h.steps[j].env, a, e, keyOf);
    assert Link(c, h, j);
    if h.accepted[j] { EpochStepIs(c, h.states[j], h.steps[j]); }
  }
}
