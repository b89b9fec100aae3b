/** The invariants of the contract together, for every run of a new contract. */
module EveryRun {
  import opened Mainchain
  import opened Conservation
  import opened Solvency
  import opened Lifecycle
  import opened PendingQueue
  import opened CommitteeSchedule
  import opened BatchChain

  /** What the other modules ask of the state in which a run starts. */
  lemma NewMeetsStartConditions(h: History)
    requires StartsNew(h)
    ensures var s := h.states[0];
            && Ordered(s.registry) && QueueSound(s.registry) && Unstarted(s.schedule) && EmptyChain(s.chain)
            && s.registry.pending.vals == map[] && s.registry.requests == map[]
  {
  }

  /** Staking side of `ReachableStatesAreSound`. */
  ghost predicate StakingSound(h: History, i: nat, keyOf: KeyOf)
    requires i <= |h.steps| == |h.accepted| && |h.states| == |h.steps| + 1
  {
    var r := h.states[i].registry;
    && Inv(h.states[i], keyOf) && Ordered(r)
    && forall k :: BalanceAt(r, k) == Recorded(r, k) + Stranded(h, i, k)
  }

  /** Committee and batch side of `ReachableStatesAreSound`. */
  ghost predicate LogSound(c: Crypto, h: History, i: nat)
    requires i <= |h.steps| == |h.accepted| && |h.states| == |h.steps| + 1
  {
    var s := h.states[i];
    && Follows(s.schedule, Processed(h, i), s.config.committeeSize)
    && Integrity(HashBatch(c.sha), RootFunction(c.sha), s.chain, Batches(h, i))
    && Concat(Batches(h, i)) + s.chain.accumulator == Posted(h, i)
  }

  /** Every state of every run of a new contract: tokens are conserved, the registry is
      well formed, each node's balance is its recorded deposits plus what repeat deposits
      overwrote, the committees are those of the processed epochs, and the batch log is a
      hash chain that holds every posted request. */
  lemma ReachableStatesAreSound(c: Crypto, h: History, i: nat, keyOf: KeyOf)
    requires IsRun(c, h) && StartsNew(h) && OneKeyPerAccount(h.steps, keyOf) && i <= |h.steps|
    ensures StakingSound(h, i, keyOf) && LogSound(c, h, i)
  {
    NewMeetsStartConditions(h);
    StakingIsSound(c, h, i, keyOf);
    CommitteesExactly(c, h, i);
    ChainIntegrity(c, h, i);
    NoRequestLost(c, h, i);
  }

  lemma StakingIsSound(c: Crypto, h: History, i: nat, keyOf: KeyOf)
    requires IsRun(c, h) && StartsNew(h) && OneKeyPerAccount(h.steps, keyOf) && i <= |h.steps|
    ensures StakingSound(h, i, keyOf)
  {
    NewMeetsStartConditions(h);
    NewIsSound(h, keyOf);
    RunKeepsInv(c, h, i, keyOf);
    RunKeepsOrdered(c, h, i);
    forall k ensures BalanceAt(h.states[i].registry, k) == Recorded(h.states[i].registry, k) + Stranded(h, i, k) {
      BalanceIsRecordedPlusStranded(c, h, i, keyOf, k);
    }
  }
}
