/** When an epoch can be processed. */
module EpochProgress {
  import opened Collections
  import opened Committee
  import opened Mainchain
  import opened Staking
  import opened Lifecycle
  import opened PendingQueue
  import opened CommitteeSchedule

  /** The active nodes once the due ones have been migrated. */
  ghost function ActiveAfter(r: Registry, epoch: nat): set<AccountId> {
    r.active.vals.Keys + DueSet(r, epoch)
  }

  ghost predicate DueHaveRecords(r: Registry, epoch: nat) {
    forall a :: a in DueSet(r, epoch) ==> a in r.inactive
  }

  /** The migration of an epoch change, by its two outcomes. */
  lemma MigrationExactly(r: Registry, epoch: nat)
    requires Ordered(r)
    ensures var r' := Migrate(r, Due(r.pending.keys, r.pending.vals, epoch));
            && (r'.Some? <==> DueHaveRecords(r, epoch))
            && (r'.Some? ==> |r'.value.active.keys| == |ActiveAfter(r, epoch)|)
  {
    var due := Due(r.pending.keys, r.pending.vals, epoch);
    DueIsDueSet(r, epoch);
    DueNoDup(r.pending.keys, r.pending.vals, epoch);
    MigrateRuns(r, due);
    assert forall a :: a in due <==> a in DueSet(r, epoch);
    if Migrate(r, due).Some? {
      MigrateMovesExactly(r, due);
      MigrateOrdered(r, due);
      UnorderedMapSize(Migrate(r, due).value.active);
      assert Migrate(r, due).value.active.vals.Keys == ActiveAfter(r, epoch);
    }
  }

  lemma ElectionNeedsCandidates(c: Crypto, t: Schedule, config: Config, validators: seq<AccountId>, epoch: nat, gas: nat)
    requires Elect(c, t, config, validators, epoch, gas).Some?
    ensures t.bootstrapping || config.committeeSize <= |validators|
  {
    var prn := PrnStream(c.sha, t.lastRandom);
    SelectFromDistinct(prn, |validators|, config.committeeSize, [], 0, gas);
    var chosen := SelectIndices(prn, |validators|, config.committeeSize, gas);
    if chosen.Some? { DistinctIndicesBounded(chosen.value, |validators|); }
  }

  lemma FairElectionEnds(c: Crypto, t: Schedule, config: Config, validators: seq<AccountId>, epoch: nat) returns (gas: nat)
    requires Fair(PrnStream(c.sha, t.lastRandom), |validators|)
    requires t.bootstrapping || config.committeeSize <= |validators|
    ensures Elect(c, t, config, validators, epoch, gas).Some?
  {
    gas := 0;
    if config.committeeSize <= |validators| {
      gas := FairFromEnds(PrnStream(c.sha, t.lastRandom), |validators|, config.committeeSize, [], 0);
    }
  }

  /** On a hash stream that keeps coming back to every index, an epoch that is not yet
      processed can be processed, with enough gas, exactly when every due account has an
      inactive record and either bootstrapping goes on or there are enough nodes. */
  lemma EpochProcessableExactly(c: Crypto, s: State, env: Env)
    requires Ordered(s.registry) && env.Epoch() > s.schedule.lastProcessedEpoch
    requires Fair(PrnStream(c.sha, s.schedule.lastRandom), |ActiveAfter(s.registry, env.Epoch())|)
    ensures (exists gas: nat :: NextEpoch(c, s, env.(gas := gas)).Some?) <==>
              && DueHaveRecords(s.registry, env.Epoch())
              && (s.schedule.bootstrapping || s.config.committeeSize <= |ActiveAfter(s.registry, env.Epoch())|)
  {
    var r, epoch := s.registry, env.Epoch();
    var r' := Migrate(r, Due(r.pending.keys, r.pending.vals, epoch));
    MigrationExactly(r, epoch);
    if r'.Some? && (s.schedule.bootstrapping || s.config.committeeSize <= |ActiveAfter(r, epoch)|) {
      var gas := FairElectionEnds(c, s.schedule, s.config, r'.value.active.keys, epoch);
      assert NextEpoch(c, s, env.(gas := gas)).Some?;
    }
    forall gas: nat | NextEpoch(c, s, env.(gas := gas)).Some?
      ensures r'.Some? && (s.schedule.bootstrapping || s.config.committeeSize <= |ActiveAfter(r, epoch)|)
    {
      ElectionNeedsCandidates(c, s.schedule, s.config, r'.value.active.keys, epoch, gas);
    }
  }

  /** After bootstrapping, a registry with fewer nodes than seats stops the epochs: no hash
      stream and no amount of gas helps. */
  lemma TooFewNodesStopEpochs(c: Crypto, s: State, env: Env)
    requires Ordered(s.registry) && env.Epoch() > s.schedule.lastProcessedEpoch && !s.schedule.bootstrapping
    requires |ActiveAfter(s.registry, env.Epoch())| < s.config.committeeSize
    ensures NextEpoch(c, s, env) == None
  {
    var r, epoch := s.registry, env.Epoch();
    var r' := Migrate(r, Due(r.pending.keys, r.pending.vals, epoch));
    MigrationExactly(r, epoch);
    if NextEpoch(c, s, env).Some? {
      ElectionNeedsCandidates(c, s.schedule, s.config, r'.value.active.keys, epoch, env.gas);
    }
  }

  lemma ElectionHappens(c: Crypto, t: Schedule, config: Config, validators: seq<AccountId>, epoch: nat, gas: nat)
    requires Elect(c, t, config, validators, epoch, gas).Some? && epoch > t.lastProcessedEpoch
    ensures SameSchedule(t, Elect(c, t, config, validators, epoch, gas).value)
       <==> t.bootstrapping && |validators| < config.committeeSize
  {
  }

  lemma EpochElectsExactly(c: Crypto, s: State, env: Env)
    requires Ordered(s.registry) && NextEpoch(c, s, env).Some?
    ensures SameSchedule(s.schedule, NextEpoch(c, s, env).value.schedule) <==>
              || env.Epoch() <= s.schedule.lastProcessedEpoch
              || (s.schedule.bootstrapping && |ActiveAfter(s.registry, env.Epoch())| < s.config.committeeSize)
  {
    var r, epoch := s.registry, env.Epoch();
    if epoch > s.schedule.lastProcessedEpoch {
      MigrationExactly(r, epoch);
      var r' := Migrate(r, Due(r.pending.keys, r.pending.vals, epoch)).value;
      ElectionHappens(c, s.schedule, s.config, r'.active.keys, epoch, env.gas);
    }
  }

  /** Over every run an epoch is processed by exactly those accepted epoch calls that come
      in a later epoch than the last one processed, once bootstrapping is over or there are
      enough nodes to end it. */
  lemma ElectsAtExactly(c: Crypto, h: History, i: nat)
    requires IsRun(c, h) && i < |h.steps| && Ordered(h.states[0].registry)
    ensures var s, step := h.states[i], h.steps[i];
            ElectsAt(h, i) <==>
              && h.accepted[i] && IsEpochStep(step.call) && step.env.Epoch() > s.schedule.lastProcessedEpoch
              && (s.schedule.bootstrapping ==> s.config.committeeSize <= |ActiveAfter(s.registry, step.env.Epoch())|)
  {
    RunKeepsOrdered(c, h, i);
    LinkSchedule(c, h, i);
    assert Link(c, h, i);
    if h.accepted[i] && IsEpochStep(h.steps[i].call) {
      EpochStepIs(c, h.states[i], h.steps[i]);
      EpochElectsExactly(c, h.states[i], h.steps[i].env);
    }
  }
}
