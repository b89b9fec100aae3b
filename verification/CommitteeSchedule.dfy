/** Which epochs have a committee, over whole runs, and who leads a slot. */
module CommitteeSchedule {
  import opened Collections
  import opened Committee
  import opened Mainchain
  import opened Lifecycle

  /** `k` is a full committee of distinct accounts that are all active in `r`. */
  ghost predicate FullCommittee(k: seq<AccountId>, size: nat, r: Registry) {
    |k| == size <= |r.active.vals| && NoDup(k) && forall a :: a in k ==> a in r.active.vals
  }

  /** The schedule after an election: three epochs are filled when bootstrapping ends, one
      afterwards. */
  ghost predicate Election(t: Schedule, t': Schedule, epoch: nat, k: seq<AccountId>) {
    && epoch > t.lastProcessedEpoch && t'.lastProcessedEpoch == epoch && !t'.bootstrapping
    && t'.committees ==
         if t.bootstrapping then t.committees[epoch := k][epoch + 1 := k][epoch + 2 := k] else t.committees[epoch + 2 := k]
  }

  ghost predicate SameSchedule(t: Schedule, t': Schedule) {
    t'.committees == t.committees && t'.bootstrapping == t.bootstrapping && t'.lastProcessedEpoch == t.lastProcessedEpoch
  }

  /** A step either leaves the schedule alone or elects a full committee for its epoch. */
  ghost predicate ScheduleStep(s: State, step: Step, s': State) {
    var t, t' := s.schedule, s'.schedule;
    && s'.config.committeeSize == s.config.committeeSize
    && (SameSchedule(t, t') ||
        (var e := step.env.Epoch();
         IsEpochStep(step.call) && e + 2 in t'.committees && Election(t, t', e, t'.committees[e + 2])
         && FullCommittee(t'.committees[e + 2], s.config.committeeSize, s'.registry)))
  }

  lemma ElectIsFull(c: Crypto, s: State, r: Registry, epoch: nat, gas: nat)
    requires r.active.Ok() && Elect(c, s.schedule, s.config, r.active.keys, epoch, gas).Some?
    requires epoch > s.schedule.lastProcessedEpoch
    ensures var t, t' := s.schedule, Elect(c, s.schedule, s.config, r.active.keys, epoch, gas).value;
            t' == t || (epoch + 2 in t'.committees && Election(t, t', epoch, t'.committees[epoch + 2])
                        && FullCommittee(t'.committees[epoch + 2], s.config.committeeSize, r))
  {
    var prn := PrnStream(c.sha, s.schedule.lastRandom);
    CommitteeIsDistinct(prn, r.active.keys, s.config.committeeSize, gas);
    UnorderedMapSize(r.active);
    var k := CommitteeOf(prn, r.active.keys, s.config.committeeSize, gas);
    if k.Some? {
      forall a | a in k.value ensures a in r.active.vals { assert a in Elems(r.active.keys); }
    }
  }

  lemma EpochSchedule(c: Crypto, s: State, step: Step)
    requires Ordered(s.registry) && IsEpochStep(step.call) && NextEpoch(c, s, step.env).Some?
    ensures ScheduleStep(s, step, NextEpoch(c, s, step.env).value)
  {
    if step.env.Epoch() > s.schedule.lastProcessedEpoch {
      var due := Due(s.registry.pending.keys, s.registry.pending.vals, step.env.Epoch());
      MigrateOrdered(s.registry, due);
      ElectIsFull(c, s, Migrate(s.registry, due).value, step.env.Epoch(), step.env.gas);
    }
  }

  lemma StepSchedule(c: Crypto, s: State, step: Step)
    requires Ordered(s.registry) && Apply(c, s, step).Some?
    ensures ScheduleStep(s, step, Apply(c, s, step).value)
  {
    if IsEpochStep(step.call) {
      EpochStepIs(c, s, step);
      EpochSchedule(c, s, step);
      BatchKeepsSchedule(s, step, NextEpoch(c, s, step.env).value, Apply(c, s, step).value);
    }
  }

  /** The batch that follows an epoch change leaves the schedule alone. */
  lemma BatchKeepsSchedule(s: State, step: Step, s1: State, s': State)
    requires ScheduleStep(s, step, s1) && OnlyBatchAdded(s1, s')
    ensures ScheduleStep(s, step, s')
  {
  }

  lemma LinkSchedule(c: Crypto, h: History, i: nat)
    requires IsRun(c, h) && i < |h.steps| && Ordered(h.states[i].registry)
    ensures ScheduleStep(h.states[i], h.steps[i], h.states[i + 1])
  {
    assert Link(c, h, i);
    if h.accepted[i] { StepSchedule(c, h.states[i], h.steps[i]); }
  }

  // ----- whole runs

  ghost predicate ElectsAt(h: History, i: nat)
    requires i < |h.steps| && |h.states| == |h.steps| + 1
  {
    !SameSchedule(h.states[i].schedule, h.states[i + 1].schedule)
  }

  /** The epochs processed by an election in the first `i` steps, in order. */
  ghost function Processed(h: History, i: nat): seq<nat>
    requires i <= |h.steps| && |h.states| == |h.steps| + 1
  {
    if i == 0 then []
    else if ElectsAt(h, i - 1) then Processed(h, i - 1) + [h.steps[i - 1].env.Epoch()]
    else Processed(h, i - 1)
  }

  /** The first processed epoch, the one after it, and the second epoch after each
      processed epoch. */
  ghost predicate Scheduled(p: seq<nat>, e: nat) {
    p != [] && (e == p[0] || e == p[0] + 1 || exists i :: 0 <= i < |p| && e == p[i] + 2)
  }

  ghost predicate Unstarted(t: Schedule) {
    t.committees == map[] && t.bootstrapping && t.lastProcessedEpoch == 0
  }

  ghost predicate InOrder(t: Schedule, p: seq<nat>) {
    && (t.bootstrapping <==> p == [])
    && (forall i, j :: 0 <= i < j < |p| ==> p[i] < p[j])
    && t.lastProcessedEpoch == (if p == [] then 0 else p[|p| - 1])
  }

  ghost predicate FilledExactly(t: Schedule, p: seq<nat>) {
    forall e :: e in t.committees <==> Scheduled(p, e)
  }

  ghost predicate FullSize(t: Schedule, size: nat) {
    forall e :: e in t.committees ==> |t.committees[e]| == size && NoDup(t.committees[e])
  }

  /** The schedule that the processed epochs determine. */
  ghost predicate Follows(t: Schedule, p: seq<nat>, size: nat) {
    InOrder(t, p) && FilledExactly(t, p) && FullSize(t, size)
  }

  lemma ScheduledMore(p: seq<nat>, n: nat, e: nat)
    requires p != []
    ensures Scheduled(p + [n], e) <==> Scheduled(p, e) || e == n + 2
  {
    var q := p + [n];
    assert q[|p|] == n;
    if Scheduled(p, e) && e != p[0] && e != p[0] + 1 {
      var i :| 0 <= i < |p| && e == p[i] + 2;
      assert q[i] == p[i];
    }
  }

  lemma FirstScheduled(n: nat, e: nat)
    ensures Scheduled([n], e) <==> e == n || e == n + 1 || e == n + 2
  {
    assert [n][0] == n;
  }

  lemma ElectionFills(t: Schedule, t': Schedule, p: seq<nat>, epoch: nat, k: seq<AccountId>)
    requires (t.bootstrapping <==> p == []) && FilledExactly(t, p) && Election(t, t', epoch, k)
    ensures FilledExactly(t', p + [epoch])
  {
    forall e: nat ensures e in t'.committees <==> Scheduled(p + [epoch], e) {
      if p == [] {
        assert p + [epoch] == [epoch];
        FirstScheduled(epoch, e);
      } else {
        ScheduledMore(p, epoch, e);
      }
    }
  }

  lemma ElectionFollows(t: Schedule, t': Schedule, p: seq<nat>, epoch: nat, k: seq<AccountId>, size: nat)
    requires Follows(t, p, size) && Election(t, t', epoch, k) && |k| == size && NoDup(k)
    ensures Follows(t', p + [epoch], size)
  {
    ElectionFills(t, t', p, epoch, k);
    assert InOrder(t', p + [epoch]);
  }

  lemma SameFollows(t: Schedule, t': Schedule, p: seq<nat>, size: nat)
    requires Follows(t, p, size) && SameSchedule(t, t')
    ensures Follows(t', p, size)
  {
  }

  /** At every point of every run: the epochs with a committee are the first processed
      epoch, the one after it, and the second after each processed epoch; every committee
      has `committee_size` distinct members. */
  lemma {:induction false} CommitteesExactly(c: Crypto, h: History, i: nat)
    requires IsRun(c, h) && i <= |h.steps| && Ordered(h.states[0].registry) && Unstarted(h.states[0].schedule)
    ensures h.states[i].config.committeeSize == h.states[0].config.committeeSize
    ensures Follows(h.states[i].schedule, Processed(h, i), h.states[0].config.committeeSize)
  {
    if i > 0 {
      CommitteesExactly(c, h, i - 1);
      RunKeepsOrdered(c, h, i - 1);
      LinkSchedule(c, h, i - 1);
      var t, t', e := h.states[i - 1].schedule, h.states[i].schedule, h.steps[i - 1].env.Epoch();
      if ElectsAt(h, i - 1) {
        ElectionFollows(t, t', Processed(h, i - 1), e, t'.committees[e + 2], h.states[0].config.committeeSize);
      } else {
        SameFollows(t, t', Processed(h, i - 1), h.states[0].config.committeeSize);
      }
    }
  }

  /** The committees are full, too, after an epoch change that is about to happen. */
  lemma NextCommitteesFull(c: Crypto, h: History, env: Env)
    requires IsRun(c, h) && Ordered(h.states[0].registry) && Unstarted(h.states[0].schedule)
    requires NextEpoch(c, h.states[|h.steps|], env).Some?
    ensures FullSize(NextEpoch(c, h.states[|h.steps|], env).value.schedule, h.states[|h.steps|].config.committeeSize)
  {
    var h' := ExtendEpoch(c, h, env);
    CommitteesExactly(c, h, |h.steps|);
    CommitteesExactly(c, h', |h'.steps|);
  }

  lemma ElectionKeepsEntries(t: Schedule, t': Schedule, p: seq<nat>, epoch: nat, k: seq<AccountId>, size: nat, e: nat)
    requires Follows(t, p, size) && Election(t, t', epoch, k) && e in t.committees
    ensures e in t'.committees && t'.committees[e] == t.committees[e]
  {
    assert Scheduled(p, e);
    assert e <= t.lastProcessedEpoch + 2 by {
      if e != p[0] && e != p[0] + 1 {
        var i :| 0 <= i < |p| && e == p[i] + 2;
        assert p[i] <= p[|p| - 1];
      }
    }
  }

  /** A committee is written once and never replaced. */
  lemma {:induction false} CommitteesPermanent(c: Crypto, h: History, i: nat, j: nat, e: nat)
    requires IsRun(c, h) && i <= j <= |h.steps| && Ordered(h.states[0].registry) && Unstarted(h.states[0].schedule)
    requires e in h.states[i].schedule.committees
    ensures e in h.states[j].schedule.committees && h.states[j].schedule.committees[e] == h.states[i].schedule.committees[e]
    decreases j - i
  {
    if i < j {
      CommitteesExactly(c, h, i);
      RunKeepsOrdered(c, h, i);
      LinkSchedule(c, h, i);
      var t, t', n := h.states[i].schedule, h.states[i + 1].schedule, h.steps[i].env.Epoch();
      if ElectsAt(h, i) {
        ElectionKeepsEntries(t, t', Processed(h, i), n, t'.committees[n + 2], h.states[0].config.committeeSize, e);
      }
      CommitteesPermanent(c, h, i + 1, j, e);
    }
  }

  /** Whenever the current epoch has a committee, the slot has a leader on that committee,
      unless the contract was set up with committees of size zero, where asking panics. */
  lemma LeaderSitsOnCommittee(c: Crypto, h: History, i: nat, env: Env)
    requires IsRun(c, h) && i <= |h.steps| && Ordered(h.states[0].registry) && Unstarted(h.states[0].schedule)
    requires env.Epoch() in h.states[i].schedule.committees
    ensures var leader := CurrentLeader(c, h.states[i], env);
            if h.states[0].config.committeeSize > 0
            then leader.Leader? && leader.account.Some? && leader.account.value in h.states[i].schedule.committees[env.Epoch()]
            else leader == DivisionByZero
  {
    CommitteesExactly(c, h, i);
  }
}
