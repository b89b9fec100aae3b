/** Active nodes against the minimum stake.

    A balance update deactivates a node that falls below the minimum, but a pending entry
    outlives a drop of the balance or a rise of the minimum, and raising the minimum does
    not touch active nodes.  Activating such an entry and raising the minimum are the only
    two steps that leave an active node under it. */
module MinimumStake {
  import opened Collections
  import opened Committee
  import opened Mainchain
  import opened Staking
  import opened Conservation
  import opened Lifecycle
  import opened PendingQueue

  ghost predicate FullyStaked(s: State) {
    forall a :: a in s.registry.active.vals ==> s.registry.active.vals[a].balance >= s.config.minimumStake
  }

  ghost predicate RaisesMinimum(s: State, step: Step) {
    && step.call.UpdateConfig? && step.call.field == UpdateConfig.MinimumStake
    && exists a :: a in s.registry.active.vals && s.registry.active.vals[a].balance < step.call.value
  }

  /** The epoch change activates a node that is under the minimum: its balance has dropped,
      or the minimum has risen, since it was queued. */
  ghost predicate ActivatesUnderstaked(s: State, step: Step) {
    && IsEpochStep(step.call) && step.env.Epoch() > s.schedule.lastProcessedEpoch
    && exists a :: a in DueSet(s.registry, step.env.Epoch()) && a in s.registry.inactive
                && s.registry.inactive[a].balance < s.config.minimumStake
  }

  lemma MigrationStaked(r: Registry, due: seq<AccountId>, minimum: nat)
    requires NoDup(due) && Migrate(r, due).Some?
    requires forall a :: a in r.active.vals ==> r.active.vals[a].balance >= minimum
    ensures (forall a :: a in Migrate(r, due).value.active.vals ==> Migrate(r, due).value.active.vals[a].balance >= minimum)
       <==> (forall a :: a in due ==> a in r.inactive && r.inactive[a].balance >= minimum)
  {
    MigrateRuns(r, due);
    MigrateMovesExactly(r, due);
    var r' := Migrate(r, due).value;
    forall a | a in due ensures r'.active.vals[a] == r.inactive[a] {}
  }

  lemma EpochStaked(c: Crypto, s: State, step: Step)
    requires Ordered(s.registry) && FullyStaked(s) && IsEpochStep(step.call) && NextEpoch(c, s, step.env).Some?
    ensures FullyStaked(NextEpoch(c, s, step.env).value) <==> !ActivatesUnderstaked(s, step)
  {
    var r, epoch := s.registry, step.env.Epoch();
    if epoch > s.schedule.lastProcessedEpoch {
      var due := Due(r.pending.keys, r.pending.vals, epoch);
      DueIsDueSet(r, epoch);
      DueNoDup(r.pending.keys, r.pending.vals, epoch);
      MigrateRuns(r, due);
      MigrationStaked(r, due, s.config.minimumStake);
      assert forall a :: a in due <==> a in DueSet(r, epoch);
    }
  }

  lemma FileKeepsStaked(r: Registry, config: Config, epoch: nat, a: AccountId, node: Node)
    requires forall b :: b in r.active.vals ==> r.active.vals[b].balance >= config.minimumStake
    requires FileNode(r, config, epoch, a, node).Some?
    ensures var r' := FileNode(r, config, epoch, a, node).value;
            forall b :: b in r'.active.vals ==> r'.active.vals[b].balance >= config.minimumStake
  {
  }

  lemma BalanceUpdateKeepsStaked(c: Crypto, s: State, step: Step)
    requires FullyStaked(s) && IsBalanceUpdate(step.call) && Apply(c, s, step).Some?
    ensures FullyStaked(Apply(c, s, step).value)
  {
    var node, node' := UpdateMoves(c, s, step);
    FileKeepsStaked(s.registry, s.config, step.env.Epoch(), s.registry.byEd25519[step.call.key], node');
  }

  lemma OtherStepStaked(c: Crypto, s: State, step: Step)
    requires FullyStaked(s) && !IsBalanceUpdate(step.call) && !IsEpochStep(step.call) && Apply(c, s, step).Some?
    ensures FullyStaked(Apply(c, s, step).value) <==> !RaisesMinimum(s, step)
  {
  }

  /** Only these two steps leave an active node under the minimum. */
  lemma StepKeepsStakedExactly(c: Crypto, s: State, step: Step)
    requires Ordered(s.registry) && FullyStaked(s) && Apply(c, s, step).Some?
    ensures FullyStaked(Apply(c, s, step).value) <==> !RaisesMinimum(s, step) && !ActivatesUnderstaked(s, step)
  {
    if IsBalanceUpdate(step.call) {
      BalanceUpdateKeepsStaked(c, s, step);
    } else if IsEpochStep(step.call) {
      EpochStepIs(c, s, step);
      EpochStaked(c, s, step);
    } else {
      OtherStepStaked(c, s, step);
    }
  }

  lemma LinkKeepsStaked(c: Crypto, h: History, i: nat)
    requires IsRun(c, h) && i < |h.steps| && Ordered(h.states[i].registry) && FullyStaked(h.states[i])
    ensures FullyStaked(h.states[i + 1]) <==>
              !(h.accepted[i] && (RaisesMinimum(h.states[i], h.steps[i]) || ActivatesUnderstaked(h.states[i], h.steps[i])))
  {
    assert Link(c, h, i);
    if h.accepted[i] { StepKeepsStakedExactly(c, h.states[i], h.steps[i]); }
  }

  /** Over every run all active nodes meet the minimum throughout exactly when neither
      step occurred. */
  lemma {:induction false} RunKeepsStakedExactly(c: Crypto, h: History, i: nat)
    requires IsRun(c, h) && i <= |h.steps| && Ordered(h.states[0].registry) && FullyStaked(h.states[0])
    ensures (forall j :: 0 <= j <= i ==> FullyStaked(h.states[j]))
       <==> (forall j :: 0 <= j < i && h.accepted[j] ==>
               !RaisesMinimum(h.states[j], h.steps[j]) && !ActivatesUnderstaked(h.states[j], h.steps[j]))
  {
    if i > 0 {
      RunKeepsStakedExactly(c, h, i - 1);
      RunKeepsOrdered(c, h, i - 1);
      if FullyStaked(h.states[i - 1]) { LinkKeepsStaked(c, h, i - 1); }
    }
  }
}
