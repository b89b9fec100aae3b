/** The batch log over whole runs: no request is lost, repeated or reordered, and the
    batch ids form a hash chain. */
module BatchChain {
  import opened Bytes
  import opened Bn254
  import opened Committee
  import opened Mainchain
  import Merkle

  // ----- the encoding of a batch

  lemma BorshParts(b: MerklizedBatch)
    ensures var p := BorshBatch(b);
            && |p| == 108 && p[..32] == b.prevRoot.bytes && p[32..40] == LittleEndian(b.header.height, 8)
            && p[40..72] == b.header.stateRoot.bytes && p[72..76] == [32, 0, 0, 0] && p[76..] == b.transactions.bytes
  {
    var h, l := LittleEndian(b.header.height, 8), LittleEndian(32, 4);
    assert l == [32, 0, 0, 0];
    assert BorshBatch(b) == b.prevRoot.bytes + (h + (b.header.stateRoot.bytes + (l + b.transactions.bytes)));
  }

  /** The encoding determines the batch. */
  lemma BorshBatchInjective(a: MerklizedBatch, b: MerklizedBatch)
    requires a.header.height < U64_LIMIT && b.header.height < U64_LIMIT
    requires BorshBatch(a) == BorshBatch(b)
    ensures a == b
  {
    BorshParts(a);
    BorshParts(b);
    U64Width();
    LittleEndianRoundTrip(a.header.height, 8);
    LittleEndianRoundTrip(b.header.height, 8);
  }

  // ----- what a run posts

  ghost predicate IsPost(h: History, i: nat)
    requires i < |h.steps| == |h.accepted|
  {
    h.accepted[i] && h.steps[i].call.PostSignedBatch?
  }

  /** All requests posted in the first `i` steps, in order. */
  ghost function Posted(h: History, i: nat): seq<Request>
    requires i <= |h.steps| == |h.accepted|
  {
    if i == 0 then []
    else if h.accepted[i - 1] && h.steps[i - 1].call.PostDataRequest? then Posted(h, i - 1) + [h.steps[i - 1].call.request]
    else Posted(h, i - 1)
  }

  /** The accumulator contents taken by each accepted batch of the first `i` steps. */
  ghost function Batches(h: History, i: nat): seq<seq<Request>>
    requires i <= |h.steps| == |h.accepted| && |h.states| == |h.steps| + 1
  {
    if i == 0 then []
    else if IsPost(h, i - 1) then Batches(h, i - 1) + [h.states[i - 1].chain.accumulator]
    else Batches(h, i - 1)
  }

  ghost function Concat(bs: seq<seq<Request>>): seq<Request> {
    if bs == [] then [] else Concat(bs[..|bs| - 1]) + bs[|bs| - 1]
  }

  // ----- the log that the posted batches determine

  ghost function IdBefore(chain: Chain, n: nat): CryptoHash
    requires n > 0
  {
    if n - 1 in chain.idsByHeight then chain.idsByHeight[n - 1] else ZERO_HASH
  }

  type RootOf = seq<Request> -> CryptoHash

  function RootFunction(sha: Sha256): RootOf {
    rs => Merkle.Root(sha, rs)
  }

  /** What is hashed into the id at height `n`. */
  ghost function BatchAt(root: RootOf, chain: Chain, bs: seq<seq<Request>>, n: nat): MerklizedBatch
    requires 1 <= n <= |bs|
  {
    MerklizedBatch(IdBefore(chain, n), BatchHeader(n, ZERO_HASH), root(bs[n - 1]))
  }

  ghost predicate LastWithId(chain: Chain, n: nat, count: nat) {
    n in chain.idsByHeight && forall m :: n < m <= count && m in chain.idsByHeight ==> chain.idsByHeight[m] != chain.idsByHeight[n]
  }

  ghost predicate Stored(chain: Chain, bs: seq<seq<Request>>, n: nat)
    requires 1 <= n <= |bs|
  {
    && n in chain.idsByHeight && chain.idsByHeight[n] in chain.batchById
    && chain.batchById[chain.idsByHeight[n]] == Batch(BatchHeader(n, ZERO_HASH), bs[n - 1])
  }

  ghost predicate LinkedAt(hash: BatchHash, root: RootOf, chain: Chain, bs: seq<seq<Request>>, n: nat)
    requires 1 <= n <= |bs|
  {
    n in chain.idsByHeight && chain.idsByHeight[n] == hash(BatchAt(root, chain, bs, n))
  }

  /** Heights are exactly 1 up to the number of batches, and each id is the hash of its
      predecessor, its header and the Merkle root of its transactions. */
  ghost predicate Chained(hash: BatchHash, root: RootOf, chain: Chain, bs: seq<seq<Request>>) {
    && chain.numBatches == |bs| < U64_LIMIT
    && (forall n :: n in chain.idsByHeight <==> 1 <= n <= |bs|)
    && (forall n :: 1 <= n <= |bs| ==> LinkedAt(hash, root, chain, bs, n))
  }

  /** An id leads to the batch that was stored under it last. */
  ghost predicate LatestStored(chain: Chain, bs: seq<seq<Request>>) {
    forall n :: 1 <= n <= |bs| && LastWithId(chain, n, |bs|) ==> Stored(chain, bs, n)
  }

  lemma AppendChained(hash: BatchHash, root: RootOf, chain: Chain, bs: seq<seq<Request>>)
    requires Chained(hash, root, chain, bs) && |bs| + 1 < U64_LIMIT
    ensures Chained(hash, root, AppendBatch(hash, root(chain.accumulator), chain), bs + [chain.accumulator])
  {
    var chain', bs' := AppendBatch(hash, root(chain.accumulator), chain), bs + [chain.accumulator];
    forall n | 1 <= n <= |bs'| ensures LinkedAt(hash, root, chain', bs', n) {
      assert IdBefore(chain', n) == IdBefore(chain, n);
      if n <= |bs| {
        assert LinkedAt(hash, root, chain, bs, n);
        assert bs'[n - 1] == bs[n - 1];
      }
    }
  }

  lemma AppendStored(hash: BatchHash, root: CryptoHash, chain: Chain, bs: seq<seq<Request>>)
    requires chain.numBatches == |bs| && LatestStored(chain, bs) && forall n :: n in chain.idsByHeight <==> 1 <= n <= |bs|
    ensures LatestStored(AppendBatch(hash, root, chain), bs + [chain.accumulator])
  {
    var chain', bs' := AppendBatch(hash, root, chain), bs + [chain.accumulator];
    forall n | 1 <= n <= |bs'| && LastWithId(chain', n, |bs'|) ensures Stored(chain', bs', n) {
      if n <= |bs| { OlderStored(chain, chain', bs, bs', n, chain'.idsByHeight[|bs'|]); }
    }
  }

  lemma OlderStored(chain: Chain, chain': Chain, bs: seq<seq<Request>>, bs': seq<seq<Request>>, n: nat, id: CryptoHash)
    requires 1 <= n <= |bs| && bs' == bs + [chain.accumulator] && LatestStored(chain, bs)
    requires forall m :: m in chain.idsByHeight <==> 1 <= m <= |bs|
    requires id in chain'.batchById && chain'.batchById == chain.batchById[id := chain'.batchById[id]]
    requires chain'.idsByHeight == chain.idsByHeight[|bs| + 1 := id]
    requires LastWithId(chain', n, |bs'|)
    ensures Stored(chain', bs', n)
  {
    assert |bs'| in chain'.idsByHeight && chain'.idsByHeight[|bs'|] != chain'.idsByHeight[n];
    assert LastWithId(chain, n, |bs|) by {
      forall m | n < m <= |bs| && m in chain.idsByHeight ensures chain.idsByHeight[m] != chain.idsByHeight[n] {
        assert chain'.idsByHeight[m] == chain.idsByHeight[m];
      }
    }
    assert Stored(chain, bs, n);
    assert bs'[n - 1] == bs[n - 1];
  }

  // ----- steps

  /** What a step does to the log. */
  ghost predicate ChainStep(hash: BatchHash, root: RootOf, h: History, i: nat)
    requires i < |h.steps| == |h.accepted| && |h.states| == |h.steps| + 1
  {
    var chain, chain' := h.states[i].chain, h.states[i + 1].chain;
    if IsPost(h, i) then chain' == AppendBatch(hash, root(chain.accumulator), chain) && chain.numBatches + 1 < U64_LIMIT
    else if h.accepted[i] && h.steps[i].call.PostDataRequest? then
      chain' == chain.(accumulator := chain.accumulator + [h.steps[i].call.request])
    else chain' == chain
  }

  lemma EpochKeepsChain(c: Crypto, s: State, env: Env)
    requires NextEpoch(c, s, env).Some?
    ensures NextEpoch(c, s, env).value.chain == s.chain
  {
  }

  lemma PostAppends(c: Crypto, s: State, env: Env, sig: Element, key: Element, signers: seq<AccountId>, leaderSig: Element)
    requires PostBatch(c, s, env, sig, key, signers, leaderSig).Some?
    ensures PostBatch(c, s, env, sig, key, signers, leaderSig).value.chain
         == AppendBatch(HashBatch(c.sha), Merkle.Root(c.sha, s.chain.accumulator), s.chain)
    ensures s.chain.numBatches + 1 < U64_LIMIT
  {
    EpochKeepsChain(c, s, env);
  }

  lemma LinkChain(c: Crypto, h: History, i: nat)
    requires IsRun(c, h) && i < |h.steps|
    ensures ChainStep(HashBatch(c.sha), RootFunction(c.sha), h, i)
  {
    assert Link(c, h, i);
    if h.accepted[i] {
      var s, env := h.states[i], h.steps[i].env;
      match h.steps[i].call
      case PostSignedBatch(sig, key, signers, leaderSig) => PostAppends(c, s, env, sig, key, signers, leaderSig);
      case ProcessEpoch => EpochKeepsChain(c, s, env);
      case _ => QuietKeepsChain(c, s, h.steps[i]);
    }
  }

  lemma QuietKeepsChain(c: Crypto, s: State, step: Step)
    requires Apply(c, s, step).Some? && !step.call.PostSignedBatch? && !step.call.ProcessEpoch?
    ensures Apply(c, s, step).value.chain ==
              if step.call.PostDataRequest? then s.chain.(accumulator := s.chain.accumulator + [step.call.request]) else s.chain
  {
  }

  ghost predicate EmptyChain(chain: Chain) {
    chain.accumulator == [] && chain.numBatches == 0 && chain.idsByHeight == map[] && chain.batchById == map[]
  }

  ghost predicate Integrity(hash: BatchHash, root: RootOf, chain: Chain, bs: seq<seq<Request>>) {
    Chained(hash, root, chain, bs) && LatestStored(chain, bs)
  }

  lemma StepIntegrity(hash: BatchHash, root: RootOf, h: History, i: nat)
    requires i < |h.steps| == |h.accepted| && |h.states| == |h.steps| + 1
    requires ChainStep(hash, root, h, i) && Integrity(hash, root, h.states[i].chain, Batches(h, i))
    ensures Integrity(hash, root, h.states[i + 1].chain, Batches(h, i + 1))
  {
    var chain, bs := h.states[i].chain, Batches(h, i);
    if IsPost(h, i) {
      AppendChained(hash, root, chain, bs);
      AppendStored(hash, root(chain.accumulator), chain, bs);
    } else {
      SameLog(hash, root, chain, h.states[i + 1].chain, bs);
    }
  }

  lemma SameLog(hash: BatchHash, root: RootOf, chain: Chain, chain': Chain, bs: seq<seq<Request>>)
    requires Integrity(hash, root, chain, bs) && chain' == chain.(accumulator := chain'.accumulator)
    ensures Integrity(hash, root, chain', bs)
  {
    forall n | 1 <= n <= |bs| ensures LinkedAt(hash, root, chain', bs, n) {
      assert LinkedAt(hash, root, chain, bs, n);
    }
    forall n | 1 <= n <= |bs| && LastWithId(chain', n, |bs|) ensures Stored(chain', bs, n) {
      assert LastWithId(chain, n, |bs|);
    }
  }

  /** A run, seen from the log. */
  ghost predicate ChainRun(hash: BatchHash, root: RootOf, h: History) {
    && |h.steps| == |h.accepted| && |h.states| == |h.steps| + 1 && EmptyChain(h.states[0].chain)
    && forall i :: 0 <= i < |h.steps| ==> ChainStep(hash, root, h, i)
  }

  lemma RunIsChainRun(c: Crypto, h: History)
    requires IsRun(c, h) && EmptyChain(h.states[0].chain)
    ensures ChainRun(HashBatch(c.sha), RootFunction(c.sha), h)
  {
    forall i | 0 <= i < |h.steps| ensures ChainStep(HashBatch(c.sha), RootFunction(c.sha), h, i) { LinkChain(c, h, i); }
  }

  lemma {:induction false} IntegrityFrom(hash: BatchHash, root: RootOf, h: History, i: nat)
    requires ChainRun(hash, root, h) && i <= |h.steps|
    ensures Integrity(hash, root, h.states[i].chain, Batches(h, i))
  {
    if i > 0 {
      IntegrityFrom(hash, root, h, i - 1);
      assert ChainStep(hash, root, h, i - 1);
      StepIntegrity(hash, root, h, i - 1);
    }
  }

  /** Hash-chain integrity, at every point of every run. */
  lemma ChainIntegrity(c: Crypto, h: History, i: nat)
    requires IsRun(c, h) && i <= |h.steps| && EmptyChain(h.states[0].chain)
    ensures Integrity(HashBatch(c.sha), RootFunction(c.sha), h.states[i].chain, Batches(h, i))
  {
    RunIsChainRun(c, h);
    IntegrityFrom(HashBatch(c.sha), RootFunction(c.sha), h, i);
  }

  lemma StepLosesNothing(hash: BatchHash, root: RootOf, h: History, i: nat)
    requires i < |h.steps| == |h.accepted| && |h.states| == |h.steps| + 1 && ChainStep(hash, root, h, i)
    requires Concat(Batches(h, i)) + h.states[i].chain.accumulator == Posted(h, i)
    ensures Concat(Batches(h, i + 1)) + h.states[i + 1].chain.accumulator == Posted(h, i + 1)
  {
    var bs, acc := Batches(h, i), h.states[i].chain.accumulator;
    if IsPost(h, i) {
      assert (bs + [acc])[..|bs|] == bs;
      assert Concat(bs + [acc]) + [] == Concat(bs) + acc;
    } else if h.accepted[i] && h.steps[i].call.PostDataRequest? {
      assert Concat(bs) + (acc + [h.steps[i].call.request]) == Concat(bs) + acc + [h.steps[i].call.request];
    }
  }

  lemma {:induction false} NothingLostFrom(hash: BatchHash, root: RootOf, h: History, i: nat)
    requires ChainRun(hash, root, h) && i <= |h.steps|
    ensures Concat(Batches(h, i)) + h.states[i].chain.accumulator == Posted(h, i)
  {
    if i > 0 {
      NothingLostFrom(hash, root, h, i - 1);
      assert ChainStep(hash, root, h, i - 1);
      StepLosesNothing(hash, root, h, i - 1);
    }
  }

  /** The batches in height order, followed by the accumulator, are all posted requests. */
  lemma NoRequestLost(c: Crypto, h: History, i: nat)
    requires IsRun(c, h) && i <= |h.steps| && EmptyChain(h.states[0].chain)
    ensures Concat(Batches(h, i)) + h.states[i].chain.accumulator == Posted(h, i)
  {
    RunIsChainRun(c, h);
    NothingLostFrom(HashBatch(c.sha), RootFunction(c.sha), h, i);
  }

  // ----- collisions

  ghost predicate DistinctIds(chain: Chain, count: nat) {
    forall m, n :: 1 <= m < n <= count && m in chain.idsByHeight && n in chain.idsByHeight ==>
      chain.idsByHeight[m] != chain.idsByHeight[n]
  }

  ghost function BatchInputs(root: RootOf, chain: Chain, bs: seq<seq<Request>>): set<Bytes> {
    set n | 1 <= n <= |bs| :: BorshBatch(BatchAt(root, chain, bs, n))
  }

  lemma BatchesDiffer(root: RootOf, chain: Chain, bs: seq<seq<Request>>, m: nat, n: nat)
    requires 1 <= m < n <= |bs| < U64_LIMIT
    ensures BorshBatch(BatchAt(root, chain, bs, m)) != BorshBatch(BatchAt(root, chain, bs, n))
  {
    var a, b := BatchAt(root, chain, bs, m), BatchAt(root, chain, bs, n);
    if BorshBatch(a) == BorshBatch(b) { BorshBatchInjective(a, b); }
  }

  lemma HashAt(sha: Sha256, root: RootOf, chain: Chain, bs: seq<seq<Request>>, n: nat)
    requires Chained(HashBatch(sha), root, chain, bs) && 1 <= n <= |bs|
    ensures chain.idsByHeight[n] == sha(BorshBatch(BatchAt(root, chain, bs, n)))
    ensures BorshBatch(BatchAt(root, chain, bs, n)) in BatchInputs(root, chain, bs)
  {
    assert LinkedAt(HashBatch(sha), root, chain, bs, n);
    assert HashBatch(sha)(BatchAt(root, chain, bs, n)) == sha(BorshBatch(BatchAt(root, chain, bs, n)));
  }

  lemma CollisionFreeIsDistinct(sha: Sha256, root: RootOf, chain: Chain, bs: seq<seq<Request>>)
    requires Chained(HashBatch(sha), root, chain, bs) && CollisionFreeOn(sha, BatchInputs(root, chain, bs))
    ensures DistinctIds(chain, |bs|)
  {
    forall m, n | 1 <= m < n <= |bs| ensures chain.idsByHeight[m] != chain.idsByHeight[n] {
      HashAt(sha, root, chain, bs, m);
      HashAt(sha, root, chain, bs, n);
      BatchesDiffer(root, chain, bs, m, n);
    }
  }

  lemma DistinctIsCollisionFree(sha: Sha256, root: RootOf, chain: Chain, bs: seq<seq<Request>>)
    requires Chained(HashBatch(sha), root, chain, bs) && DistinctIds(chain, |bs|)
    ensures CollisionFreeOn(sha, BatchInputs(root, chain, bs))
  {
    var inputs := BatchInputs(root, chain, bs);
    forall x, y | x in inputs && y in inputs && sha(x) == sha(y) ensures x == y {
      var m :| 1 <= m <= |bs| && x == BorshBatch(BatchAt(root, chain, bs, m));
      var n :| 1 <= n <= |bs| && y == BorshBatch(BatchAt(root, chain, bs, n));
      SameHashSameHeight(sha, root, chain, bs, m, n);
    }
  }

  lemma SameHashSameHeight(sha: Sha256, root: RootOf, chain: Chain, bs: seq<seq<Request>>, m: nat, n: nat)
    requires Chained(HashBatch(sha), root, chain, bs) && DistinctIds(chain, |bs|) && 1 <= m <= |bs| && 1 <= n <= |bs|
    requires sha(BorshBatch(BatchAt(root, chain, bs, m))) == sha(BorshBatch(BatchAt(root, chain, bs, n)))
    ensures m == n
  {
    HashAt(sha, root, chain, bs, m);
    HashAt(sha, root, chain, bs, n);
  }

  lemma StoredIffDistinct(chain: Chain, bs: seq<seq<Request>>)
    requires LatestStored(chain, bs) && forall n :: n in chain.idsByHeight <==> 1 <= n <= |bs|
    ensures (forall n :: 1 <= n <= |bs| ==> Stored(chain, bs, n)) <==> DistinctIds(chain, |bs|)
  {
    if DistinctIds(chain, |bs|) {
      forall n | 1 <= n <= |bs| ensures Stored(chain, bs, n) { assert LastWithId(chain, n, |bs|); }
    }
    if forall n :: 1 <= n <= |bs| ==> Stored(chain, bs, n) {
      forall m, n | 1 <= m < n <= |bs| ensures chain.idsByHeight[m] != chain.idsByHeight[n] {
        assert Stored(chain, bs, m) && Stored(chain, bs, n);
      }
    }
  }

  /** No collision among the batches of the first `i` steps. */
  ghost predicate NoBatchCollision(c: Crypto, h: History, i: nat)
    requires i <= |h.steps| == |h.accepted| && |h.states| == |h.steps| + 1
  {
    CollisionFreeOn(c.sha, BatchInputs(RootFunction(c.sha), h.states[i].chain, Batches(h, i)))
  }

  lemma NoCollisionIffDistinct(c: Crypto, h: History, i: nat)
    requires IsRun(c, h) && i <= |h.steps| && EmptyChain(h.states[0].chain)
    ensures NoBatchCollision(c, h, i) <==> DistinctIds(h.states[i].chain, |Batches(h, i)|)
  {
    ChainIntegrity(c, h, i);
    var root, chain, bs := RootFunction(c.sha), h.states[i].chain, Batches(h, i);
    if NoBatchCollision(c, h, i) { CollisionFreeIsDistinct(c.sha, root, chain, bs); }
    if DistinctIds(chain, |bs|) { DistinctIsCollisionFree(c.sha, root, chain, bs); }
  }

  /** Every height reads back the batch that was posted there exactly when the hash has
      no collision among the batches of the run. */
  lemma ReadsBackExactly(c: Crypto, h: History, i: nat)
    requires IsRun(c, h) && i <= |h.steps| && EmptyChain(h.states[0].chain)
    ensures (forall n :: 1 <= n <= |Batches(h, i)| ==> Stored(h.states[i].chain, Batches(h, i), n)) <==> NoBatchCollision(c, h, i)
  {
    ChainIntegrity(c, h, i);
    NoCollisionIffDistinct(c, h, i);
    StoredIffDistinct(h.states[i].chain, Batches(h, i));
  }

  /** The transactions that the contract's maps hold for heights 1 to `n`. */
  function StoredTransactions(chain: Chain, n: nat): seq<Request> {
    if n == 0 then []
    else
      StoredTransactions(chain, n - 1) +
      if n in chain.idsByHeight && chain.idsByHeight[n] in chain.batchById
      then chain.batchById[chain.idsByHeight[n]].transactions else []
  }

  lemma {:induction false} StoredIsConcat(chain: Chain, bs: seq<seq<Request>>, n: nat)
    requires n <= |bs| && forall m :: 1 <= m <= n ==> Stored(chain, bs, m)
    ensures StoredTransactions(chain, n) == Concat(bs[..n])
  {
    if n > 0 {
      StoredIsConcat(chain, bs, n - 1);
      assert bs[..n][..n - 1] == bs[..n - 1];
      assert Stored(chain, bs, n);
    }
  }

  /** Without a collision, what the contract stores, in height order, followed by the
      accumulator, is every request ever posted, in order. */
  lemma StoredRequestsComplete(c: Crypto, h: History, i: nat)
    requires IsRun(c, h) && i <= |h.steps| && EmptyChain(h.states[0].chain)
    requires NoBatchCollision(c, h, i)
    ensures StoredTransactions(h.states[i].chain, h.states[i].chain.numBatches) + h.states[i].chain.accumulator == Posted(h, i)
  {
    var bs := Batches(h, i);
    ChainIntegrity(c, h, i);
    NoCollisionIffDistinct(c, h, i);
    StoredIffDistinct(h.states[i].chain, bs);
    StoredIsConcat(h.states[i].chain, bs, |bs|);
    assert bs[..|bs|] == bs;
    NoRequestLost(c, h, i);
  }

  // ----- the log only grows

  ghost predicate Grown(a: Chain, xs: seq<seq<Request>>, b: Chain, ys: seq<seq<Request>>) {
    && xs <= ys
    && forall n :: n in a.idsByHeight ==> n in b.idsByHeight && b.idsByHeight[n] == a.idsByHeight[n]
  }

  lemma StepGrows(hash: BatchHash, root: RootOf, h: History, i: nat)
    requires i < |h.steps| == |h.accepted| && |h.states| == |h.steps| + 1
    requires ChainStep(hash, root, h, i) && Integrity(hash, root, h.states[i].chain, Batches(h, i))
    ensures Grown(h.states[i].chain, Batches(h, i), h.states[i + 1].chain, Batches(h, i + 1))
  {
  }

  lemma {:induction false} LogGrows(hash: BatchHash, root: RootOf, h: History, i: nat, j: nat)
    requires ChainRun(hash, root, h) && i <= j <= |h.steps|
    ensures Grown(h.states[i].chain, Batches(h, i), h.states[j].chain, Batches(h, j))
  {
    if i < j {
      LogGrows(hash, root, h, i, j - 1);
      assert ChainStep(hash, root, h, j - 1);
      IntegrityFrom(hash, root, h, j - 1);
      StepGrows(hash, root, h, j - 1);
    }
  }

  /** No later step changes an earlier id, nor, without a collision, an earlier batch. */
  lemma LogIsPermanent(c: Crypto, h: History, i: nat, j: nat, n: nat)
    requires IsRun(c, h) && i <= j <= |h.steps| && EmptyChain(h.states[0].chain)
    requires NoBatchCollision(c, h, j) && 1 <= n <= h.states[i].chain.numBatches
    ensures var chain, chain' := h.states[i].chain, h.states[j].chain;
            && n in chain.idsByHeight && n in chain'.idsByHeight && chain'.idsByHeight[n] == chain.idsByHeight[n]
            && chain.idsByHeight[n] in chain.batchById && chain.idsByHeight[n] in chain'.batchById
            && chain'.batchById[chain.idsByHeight[n]] == chain.batchById[chain.idsByHeight[n]]
  {
    RunIsChainRun(c, h);
    LogGrows(HashBatch(c.sha), RootFunction(c.sha), h, i, j);
    ChainIntegrity(c, h, i);
    ChainIntegrity(c, h, j);
    NoCollisionIffDistinct(c, h, j);
    EarlierDistinct(h.states[i].chain, Batches(h, i), h.states[j].chain, Batches(h, j));
    StoredIffDistinct(h.states[i].chain, Batches(h, i));
    StoredIffDistinct(h.states[j].chain, Batches(h, j));
    assert Stored(h.states[i].chain, Batches(h, i), n) && Stored(h.states[j].chain, Batches(h, j), n);
  }

  lemma EarlierDistinct(a: Chain, xs: seq<seq<Request>>, b: Chain, ys: seq<seq<Request>>)
    requires Grown(a, xs, b, ys) && DistinctIds(b, |ys|)
    ensures DistinctIds(a, |xs|)
  {
  }

  ghost predicate AgreeAt(root: RootOf, a: Chain, xs: seq<seq<Request>>, b: Chain, ys: seq<seq<Request>>, k: nat) {
    && 1 <= k <= |xs| && k <= |ys| && k in a.idsByHeight && k in b.idsByHeight
    && a.idsByHeight[k] == b.idsByHeight[k] && root(xs[k - 1]) == root(ys[k - 1])
  }

  /** Equal ids stand at one height, for equal roots, after equal ids. */
  ghost predicate SameEntry(root: RootOf, a: Chain, xs: seq<seq<Request>>, b: Chain, ys: seq<seq<Request>>, m: nat, n: nat) {
    && m == n && AgreeAt(root, a, xs, b, ys, m)
    && (m > 1 ==> m - 1 in a.idsByHeight && m - 1 in b.idsByHeight && a.idsByHeight[m - 1] == b.idsByHeight[m - 1])
  }

  lemma EqualIdsSameEntry(sha: Sha256, root: RootOf, a: Chain, xs: seq<seq<Request>>, b: Chain, ys: seq<seq<Request>>, m: nat, n: nat)
    requires Chained(HashBatch(sha), root, a, xs) && Chained(HashBatch(sha), root, b, ys) && 1 <= m <= |xs| && 1 <= n <= |ys|
    requires CollisionFreeOn(sha, BatchInputs(root, a, xs) + BatchInputs(root, b, ys))
    requires a.idsByHeight[m] == b.idsByHeight[n]
    ensures SameEntry(root, a, xs, b, ys, m, n)
  {
    HashAt(sha, root, a, xs, m);
    HashAt(sha, root, b, ys, n);
    BorshBatchInjective(BatchAt(root, a, xs, m), BatchAt(root, b, ys, n));
  }

  lemma {:induction false} AgreeDownwards(root: RootOf, a: Chain, xs: seq<seq<Request>>, b: Chain, ys: seq<seq<Request>>, n: nat)
    requires 1 <= n <= |xs| && n <= |ys|
    requires forall m :: 1 <= m <= n && m in a.idsByHeight && m in b.idsByHeight && a.idsByHeight[m] == b.idsByHeight[m] ==>
               SameEntry(root, a, xs, b, ys, m, m)
    requires n in a.idsByHeight && n in b.idsByHeight && a.idsByHeight[n] == b.idsByHeight[n]
    ensures forall k :: 1 <= k <= n ==> AgreeAt(root, a, xs, b, ys, k)
  {
    assert SameEntry(root, a, xs, b, ys, n, n);
    if n > 1 { AgreeDownwards(root, a, xs, b, ys, n - 1); }
  }

  /** The latest id commits to the whole log: two logs that agree on one id agree on its
      height, on every earlier id, and on the Merkle root of every earlier batch. */
  lemma IdCommitsToPast(sha: Sha256, root: RootOf, a: Chain, xs: seq<seq<Request>>, b: Chain, ys: seq<seq<Request>>, m: nat, n: nat)
    requires Chained(HashBatch(sha), root, a, xs) && Chained(HashBatch(sha), root, b, ys) && 1 <= m <= |xs| && 1 <= n <= |ys|
    requires CollisionFreeOn(sha, BatchInputs(root, a, xs) + BatchInputs(root, b, ys))
    requires a.idsByHeight[m] == b.idsByHeight[n]
    ensures m == n && forall k :: 1 <= k <= n ==> AgreeAt(root, a, xs, b, ys, k)
  {
    EqualIdsSameEntry(sha, root, a, xs, b, ys, m, n);
    forall k | 1 <= k <= n && k in a.idsByHeight && k in b.idsByHeight && a.idsByHeight[k] == b.idsByHeight[k]
      ensures SameEntry(root, a, xs, b, ys, k, k) { EqualIdsSameEntry(sha, root, a, xs, b, ys, k, k); }
    AgreeDownwards(root, a, xs, b, ys, n);
  }
}
