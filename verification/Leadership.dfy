/** Who is elected, who leads a slot, and which batches are accepted, down to the hashes. */
module Leadership {
  import opened Bytes
  import opened Collections
  import opened Bn254
  import opened Committee
  import opened Mainchain
  import opened Staking
  import opened Conservation
  import opened Lifecycle
  import opened PendingQueue
  import opened CommitteeSchedule
  import Merkle

  /** The number hashed from the last random number and a counter. */
  ghost function Hashed(c: Crypto, random: nat, counter: nat): nat {
    FromLittleEndian(c.sha(LittleEndian(random, 32) + LittleEndian(counter, 8)).bytes)
  }

  // ----- the leader

  /** The seat that leads a slot. */
  ghost function LeadingSeat(c: Crypto, random: nat, slot: nat, size: nat): nat
    requires size > 0
  {
    Hashed(c, random, slot) % size
  }

  ghost predicate KeysOf(active: map<AccountId, Node>, signers: seq<AccountId>, keys: seq<Element>) {
    |keys| == |signers| && forall i :: 0 <= i < |signers| ==> signers[i] in active && keys[i] == active[signers[i]].bn254
  }

  ghost predicate AddUpTo(r: Order, active: map<AccountId, Node>, signers: seq<AccountId>, key: Element) {
    signers != [] && exists keys: seq<Element> :: KeysOf(active, signers, keys) && Sum(r, keys) == key
  }

  /** The caller holds the leading seat of the committee, is active, and has signed the last
      random number. */
  ghost predicate FromLeader(c: Crypto, s: State, env: Env, k: seq<AccountId>, leaderSig: Element) {
    var active, random, size := s.registry.active.vals, s.schedule.lastRandom, s.config.committeeSize;
    && size > 0 && LeadingSeat(c, random, env.height / 10, size) < |k|
    && env.signer == k[LeadingSeat(c, random, env.height / 10, size)] && env.signer in active
    && Verify(c.order, c.point(LittleEndian(random, 32)), leaderSig, active[env.signer].bn254)
  }

  /** The signers sit on the committee and are active, their registered keys add up to the
      aggregate key, and the aggregate signature is on the root of the accumulator. */
  ghost predicate SignedByCommittee(c: Crypto, s: State, k: seq<AccountId>, sig: Element, key: Element, signers: seq<AccountId>) {
    && (forall a :: a in signers ==> a in k && a in s.registry.active.vals)
    && AddUpTo(c.order, s.registry.active.vals, signers, key)
    && Verify(c.order, c.point(Merkle.Root(c.sha, s.chain.accumulator).bytes), sig, key)
  }

  lemma LeaderExactly(c: Crypto, s: State, env: Env)
    ensures CurrentLeader(c, s, env) == Leader(Some(env.signer)) <==>
              && env.height / 320 in s.schedule.committees && s.config.committeeSize > 0
              && var k, seat := s.schedule.committees[env.height / 320],
                                LeadingSeat(c, s.schedule.lastRandom, env.height / 10, s.config.committeeSize);
                 seat < |k| && k[seat] == env.signer
  {
  }

  lemma KeysExactly(r: Order, active: map<AccountId, Node>, k: seq<AccountId>, signers: seq<AccountId>, key: Element)
    requires signers != []
    ensures var keys := SignerKeys(active, k, signers);
            keys.Some? && Sum(r, keys.value) == key <==>
              (forall a :: a in signers ==> a in k && a in active) && AddUpTo(r, active, signers, key)
  {
    var keys := SignerKeys(active, k, signers);
    if keys.Some? {
      assert KeysOf(active, signers, keys.value);
      forall other: seq<Element> | KeysOf(active, signers, other) ensures other == keys.value {}
    }
  }

  lemma AllowedExactly(c: Crypto, s: State, env: Env, sig: Element, key: Element, signers: seq<AccountId>, leaderSig: Element)
    ensures PostAllowed(c, s, env, sig, key, signers, leaderSig) <==>
              && env.height / 320 in s.schedule.committees
              && FromLeader(c, s, env, s.schedule.committees[env.height / 320], leaderSig)
              && SignedByCommittee(c, s, s.schedule.committees[env.height / 320], sig, key, signers)
              && s.chain.numBatches + 1 < U64_LIMIT
  {
    LeaderExactly(c, s, env);
    if env.height / 320 in s.schedule.committees && signers != [] {
      KeysExactly(c.order, s.registry.active.vals, s.schedule.committees[env.height / 320], signers, key);
    }
  }

  lemma SignedBatchIs(c: Crypto, s: State, env: Env, sig: Element, key: Element, signers: seq<AccountId>, leaderSig: Element)
    ensures Apply(c, s, Step(env, PostSignedBatch(sig, key, signers, leaderSig))) == PostBatch(c, s, env, sig, key, signers, leaderSig)
  {
  }

  lemma PostedExactly(c: Crypto, s: State, env: Env, sig: Element, key: Element, signers: seq<AccountId>, leaderSig: Element)
    ensures PostBatch(c, s, env, sig, key, signers, leaderSig).Some? <==>
              NextEpoch(c, s, env).Some? && PostAllowed(c, NextEpoch(c, s, env).value, env, sig, key, signers, leaderSig)
  {
  }

  /** A batch is accepted exactly from the node that holds the leading seat of the current
      committee, with its signature on the last random number, when it is signed by
      committee members for the root of the accumulator. */
  lemma BatchAcceptedExactly(c: Crypto, s: State, env: Env, sig: Element, key: Element, signers: seq<AccountId>, leaderSig: Element)
    ensures Apply(c, s, Step(env, PostSignedBatch(sig, key, signers, leaderSig))).Some? <==>
              && NextEpoch(c, s, env).Some?
              && var s1 := NextEpoch(c, s, env).value;
              && env.height / 320 in s1.schedule.committees
              && FromLeader(c, s1, env, s1.schedule.committees[env.height / 320], leaderSig)
              && SignedByCommittee(c, s1, s1.schedule.committees[env.height / 320], sig, key, signers)
              && s1.chain.numBatches + 1 < U64_LIMIT
  {
    SignedBatchIs(c, s, env, sig, key, signers, leaderSig);
    PostedExactly(c, s, env, sig, key, signers, leaderSig);
    if NextEpoch(c, s, env).Some? { AllowedExactly(c, NextEpoch(c, s, env).value, env, sig, key, signers, leaderSig); }
  }

  // ----- the random number

  lemma EpochKeepsRandom(c: Crypto, s: State, env: Env)
    requires NextEpoch(c, s, env).Some?
    ensures NextEpoch(c, s, env).value.schedule.lastRandom == s.schedule.lastRandom
  {
  }

  lemma BatchRandom(c: Crypto, s: State, env: Env, sig: Element, key: Element, signers: seq<AccountId>, leaderSig: Element)
    requires PostBatch(c, s, env, sig, key, signers, leaderSig).Some?
    ensures PostBatch(c, s, env, sig, key, signers, leaderSig).value.schedule.lastRandom
         == FromLittleEndian(c.sha(c.encode(leaderSig) + LittleEndian(env.height / 10, 8)).bytes)
  {
  }

  lemma OtherCallsRandom(c: Crypto, s: State, step: Step)
    requires !IsEpochStep(step.call) && Apply(c, s, step).Some?
    ensures Apply(c, s, step).value.schedule == s.schedule
  {
  }

  /** The next random number is the hash of the leader's signature and the slot; nothing but
      an accepted batch changes it. */
  lemma RandomExactly(c: Crypto, h: History, i: nat)
    requires IsRun(c, h) && i < |h.steps|
    ensures h.states[i + 1].schedule.lastRandom ==
              if h.accepted[i] && h.steps[i].call.PostSignedBatch?
              then FromLittleEndian(c.sha(c.encode(h.steps[i].call.leaderSignature) + LittleEndian(h.steps[i].env.height / 10, 8)).bytes)
              else h.states[i].schedule.lastRandom
  {
    assert Link(c, h, i);
    if h.accepted[i] { StepRandom(c, h.states[i], h.steps[i]); }
  }

  lemma StepRandom(c: Crypto, s: State, step: Step)
    requires Apply(c, s, step).Some?
    ensures Apply(c, s, step).value.schedule.lastRandom ==
              if step.call.PostSignedBatch?
              then FromLittleEndian(c.sha(c.encode(step.call.leaderSignature) + LittleEndian(step.env.height / 10, 8)).bytes)
              else s.schedule.lastRandom
  {
    match step.call
    case PostSignedBatch(sig, key, signers, leaderSig) => BatchCallRandom(c, s, step.env, sig, key, signers, leaderSig);
    case ProcessEpoch => EpochCallRandom(c, s, step.env);
    case _ => OtherCallsRandom(c, s, step);
  }

  lemma BatchCallRandom(c: Crypto, s: State, env: Env, sig: Element, key: Element, signers: seq<AccountId>, leaderSig: Element)
    requires Apply(c, s, Step(env, PostSignedBatch(sig, key, signers, leaderSig))).Some?
    ensures Apply(c, s, Step(env, PostSignedBatch(sig, key, signers, leaderSig))).value.schedule.lastRandom
         == FromLittleEndian(c.sha(c.encode(leaderSig) + LittleEndian(env.height / 10, 8)).bytes)
  {
    SignedBatchIs(c, s, env, sig, key, signers, leaderSig);
    BatchRandom(c, s, env, sig, key, signers, leaderSig);
  }

  lemma EpochCallRandom(c: Crypto, s: State, env: Env)
    requires Apply(c, s, Step(env, ProcessEpoch)).Some?
    ensures Apply(c, s, Step(env, ProcessEpoch)).value.schedule.lastRandom == s.schedule.lastRandom
  {
    EpochStepIs(c, s, Step(env, ProcessEpoch));
    EpochKeepsRandom(c, s, env);
  }

  /** Over every run every accepted batch comes from the leading seat of the committee of its
      epoch, drawn with the random number that stood before it; every other caller is
      refused. */
  lemma BatchesComeFromLeaders(c: Crypto, h: History, i: nat)
    requires IsRun(c, h) && i < |h.steps| && h.steps[i].call.PostSignedBatch? && h.accepted[i]
    ensures var env, random, size := h.steps[i].env, h.states[i].schedule.lastRandom, h.states[i].config.committeeSize;
            var committees, active := h.states[i + 1].schedule.committees, h.states[i + 1].registry.active.vals;
            && env.height / 320 in committees && size > 0
            && LeadingSeat(c, random, env.height / 10, size) < |committees[env.height / 320]|
            && env.signer == committees[env.height / 320][LeadingSeat(c, random, env.height / 10, size)]
            && env.signer in active
            && Verify(c.order, c.point(LittleEndian(random, 32)), h.steps[i].call.leaderSignature, active[env.signer].bn254)
  {
    var s, step := h.states[i], h.steps[i];
    assert Link(c, h, i);
    EpochStepIs(c, s, step);
    EpochKeepsRandom(c, s, step.env);
    EpochKeepsSize(c, s, step.env);
    BatchAcceptedExactly(c, s, step.env, step.call.aggregateSignature, step.call.aggregateKey, step.call.signers, step.call.leaderSignature);
  }

  lemma EpochKeepsSize(c: Crypto, s: State, env: Env)
    requires NextEpoch(c, s, env).Some?
    ensures NextEpoch(c, s, env).value.config == s.config
  {
  }

  // ----- the election

  /** The due accounts are listed in the order in which they were queued. */
  lemma {:induction false} DueInOrder(keys: seq<AccountId>, k: AccountId, vals: map<AccountId, nat>, epoch: nat)
    ensures Due(keys + [k], vals, epoch) == Due(keys, vals, epoch) + if k in vals && vals[k] <= epoch then [k] else []
  {
    var last := if k in vals && vals[k] <= epoch then [k] else [];
    if keys == [] {
      assert keys + [k] == [k];
    } else {
      var first := if keys[0] in vals && vals[keys[0]] <= epoch then [keys[0]] else [];
      assert (keys + [k])[1..] == keys[1..] + [k];
      DueInOrder(keys[1..], k, vals, epoch);
      Associative(first, Due(keys[1..], vals, epoch), last);
    }
  }

  lemma ActivatePlaces(r: Registry, a: AccountId)
    requires a in r.inactive && a !in r.active.vals
    ensures Activate(r, a).active.keys == r.active.keys + [a]
    ensures forall b :: b in Activate(r, a).active.vals <==> b in r.active.vals || b == a
  {
    InsertPlaces(r.active, a, r.inactive[a]);
  }

  /** Migrated nodes follow the active ones, in the order in which they were pending. */
  lemma {:induction false} MigratedInOrder(r: Registry, due: seq<AccountId>)
    requires NoDup(due) && (forall a :: a in due ==> a !in r.active.vals) && Migrate(r, due).Some?
    ensures Migrate(r, due).value.active.keys == r.active.keys + due
    decreases |due|
  {
    if due != [] {
      assert due[0] !in due[1..];
      ActivatePlaces(r, due[0]);
      assert forall a :: a in due[1..] ==> a in due;
      MigratedInOrder(Activate(r, due[0]), due[1..]);
      Associative(r.active.keys, [due[0]], due[1..]);
      assert [due[0]] + due[1..] == due;
    }
  }

  /** The candidates of an election: the active nodes, then the due ones as they were queued. */
  ghost function Candidates(r: Registry, epoch: nat): seq<AccountId> {
    r.active.keys + Due(r.pending.keys, r.pending.vals, epoch)
  }

  lemma CandidatesAreActive(c: Crypto, s: State, env: Env)
    requires WellFormed(s.registry) && Ordered(s.registry) && NextEpoch(c, s, env).Some?
    requires env.Epoch() > s.schedule.lastProcessedEpoch
    ensures NextEpoch(c, s, env).value.registry.active.keys == Candidates(s.registry, env.Epoch())
  {
    var r := s.registry;
    var due := Due(r.pending.keys, r.pending.vals, env.Epoch());
    DueNoDup(r.pending.keys, r.pending.vals, env.Epoch());
    MigratedInOrder(r, due);
  }

  /** The committee consists of the candidates whose seats the hashes of the random number
      draw. */
  ghost predicate DrawnCommittee(c: Crypto, random: nat, candidates: seq<AccountId>, size: nat, k: seq<AccountId>, d: seq<nat>, used: seq<nat>) {
    && DrawnSeats(n => Hashed(c, random, n), |candidates|, size, d, used) && |k| == size
    && forall i :: 0 <= i < size ==> d[i] < |candidates| && k[i] == candidates[d[i]]
  }

  lemma CommitteeDraws(c: Crypto, random: nat, candidates: seq<AccountId>, size: nat, gas: nat) returns (d: seq<nat>, used: seq<nat>)
    requires CommitteeOf(PrnStream(c.sha, random), candidates, size, gas).Some?
    ensures DrawnCommittee(c, random, candidates, size, CommitteeOf(PrnStream(c.sha, random), candidates, size, gas).value, d, used)
  {
    d, used := CommitteeIsDrawn(PrnStream(c.sha, random), candidates, size, gas);
    SameStream(PrnStream(c.sha, random), n => Hashed(c, random, n), |candidates|, size, d, used);
  }

  lemma SameStream(prn: Stream, prn': Stream, n: nat, size: nat, d: seq<nat>, used: seq<nat>)
    requires (forall k :: prn(k) == prn'(k)) && DrawnSeats(prn, n, size, d, used)
    ensures DrawnSeats(prn', n, size, d, used)
  {
    forall i | 0 <= i < size ensures Draw(prn', n, size, d[..i], i, d[i], used[i - 0], used[i - 0 + 1]) {
      SameDrawOf(prn, prn', n, size, d[..i], i, d[i], used[i - 0], used[i - 0 + 1]);
    }
  }

  lemma SameDrawOf(prn: Stream, prn': Stream, n: nat, size: nat, taken: seq<nat>, i: nat, idx: nat, before: nat, after: nat)
    requires (forall k :: prn(k) == prn'(k)) && Draw(prn, n, size, taken, i, idx, before, after)
    ensures Draw(prn', n, size, taken, i, idx, before, after)
  {
    assert forall k: nat :: Index(prn, n, k) == Index(prn', n, k);
  }

  lemma ElectDraws(c: Crypto, t: Schedule, config: Config, candidates: seq<AccountId>, epoch: nat, gas: nat) returns (d: seq<nat>, used: seq<nat>)
    requires Elect(c, t, config, candidates, epoch, gas).Some? && epoch > t.lastProcessedEpoch
    requires Elect(c, t, config, candidates, epoch, gas).value.lastProcessedEpoch == epoch
    ensures var t' := Elect(c, t, config, candidates, epoch, gas).value;
            epoch + 2 in t'.committees
            && DrawnCommittee(c, t.lastRandom, candidates, config.committeeSize, t'.committees[epoch + 2], d, used)
  {
    d, used := CommitteeDraws(c, t.lastRandom, candidates, config.committeeSize, gas);
  }

  lemma EpochElects(c: Crypto, s: State, env: Env)
    requires NextEpoch(c, s, env).Some? && env.Epoch() > s.schedule.lastProcessedEpoch
    ensures var s' := NextEpoch(c, s, env).value;
            Elect(c, s.schedule, s.config, s'.registry.active.keys, env.Epoch(), env.gas) == Some(s'.schedule)
  {
  }

  lemma EpochDraws(c: Crypto, s: State, env: Env, candidates: seq<AccountId>, t': Schedule) returns (d: seq<nat>, used: seq<nat>)
    requires env.Epoch() > s.schedule.lastProcessedEpoch && t'.lastProcessedEpoch == env.Epoch()
    requires Elect(c, s.schedule, s.config, candidates, env.Epoch(), env.gas) == Some(t')
    ensures env.Epoch() + 2 in t'.committees
    ensures DrawnCommittee(c, s.schedule.lastRandom, candidates, s.config.committeeSize, t'.committees[env.Epoch() + 2], d, used)
  {
    d, used := ElectDraws(c, s.schedule, s.config, candidates, env.Epoch(), env.gas);
  }

  /** The committee that the epoch change elects is drawn from the candidates. */
  ghost predicate ElectedFrom(c: Crypto, s: State, env: Env, t': Schedule, d: seq<nat>, used: seq<nat>) {
    && env.height / 320 + 2 in t'.committees
    && DrawnCommittee(c, s.schedule.lastRandom, Candidates(s.registry, env.height / 320), s.config.committeeSize,
                      t'.committees[env.height / 320 + 2], d, used)
  }

  lemma ElectionIsDrawn(c: Crypto, h: History, i: nat) returns (d: seq<nat>, used: seq<nat>)
    requires IsRun(c, h) && i < |h.steps| && Ordered(h.states[i].registry) && WellFormed(h.states[i].registry) && ElectsAt(h, i)
    ensures ElectedFrom(c, h.states[i], h.steps[i].env, h.states[i + 1].schedule, d, used)
  {
    var s, env := h.states[i], h.steps[i].env;
    ElectingStep(c, h, i);
    EpochElects(c, s, env);
    CandidatesAreActive(c, s, env);
    d, used := EpochDraws(c, s, env, Candidates(s.registry, env.Epoch()), NextEpoch(c, s, env).value.schedule);
  }

  /** Over every run an election seats, for the second epoch ahead, the candidates drawn by
      the hashes of the last random number. */
  lemma ElectionsAreDrawn(c: Crypto, h: History, i: nat, keyOf: KeyOf) returns (d: seq<nat>, used: seq<nat>)
    requires IsRun(c, h) && i < |h.steps| && Ordered(h.states[0].registry) && Inv(h.states[0], keyOf)
    requires OneKeyPerAccount(h.steps, keyOf) && ElectsAt(h, i)
    ensures ElectedFrom(c, h.states[i], h.steps[i].env, h.states[i + 1].schedule, d, used)
  {
    RunKeepsInv(c, h, i, keyOf);
    RunKeepsOrdered(c, h, i);
    d, used := ElectionIsDrawn(c, h, i);
  }

  /** An electing step is an epoch change to a later epoch. */
  lemma ElectingStep(c: Crypto, h: History, i: nat)
    requires IsRun(c, h) && i < |h.steps| && Ordered(h.states[i].registry) && ElectsAt(h, i)
    ensures var s, env := h.states[i], h.steps[i].env;
            && NextEpoch(c, s, env).Some? && env.Epoch() > s.schedule.lastProcessedEpoch
            && NextEpoch(c, s, env).value.schedule.lastProcessedEpoch == env.Epoch()
            && h.states[i + 1].schedule.committees == NextEpoch(c, s, env).value.schedule.committees
  {
    LinkSchedule(c, h, i);
    assert Link(c, h, i);
    EpochStepIs(c, h.states[i], h.steps[i]);
  }
}
