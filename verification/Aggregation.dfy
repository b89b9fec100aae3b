/** The two sides of a signed batch: what the leader's node has added up, against what
    the contract rebuilds from the list of signers. */
module Aggregation {
  import opened Bytes
  import opened Collections
  import opened Bn254
  import opened Committee
  import opened Mainchain
  import opened Lifecycle
  import opened CommitteeSchedule
  import opened Consensus
  import Contract
  import Merkle

  /** Every gossiped pair of account and bn254 key is that of an active node on the
      committee of the current epoch. */
  ghost predicate Registered(s: State, env: Env, es: seq<BatchMessage>) {
    var active := s.registry.active.vals;
    && env.Epoch() in s.schedule.committees
    && forall i :: 0 <= i < |es| ==>
         && ImplicitAccount(es[i].ed25519) in active && active[ImplicitAccount(es[i].ed25519)].bn254 == es[i].key
         && ImplicitAccount(es[i].ed25519) in s.schedule.committees[env.Epoch()]
  }

  /** The node leads the slot, is active under its own key, and signed the contract's
      current random number. */
  ghost predicate LeaderReady(c: Crypto, s: State, env: Env, id: Identity, view: BatchView) {
    var active := s.registry.active.vals;
    && env.signer == ImplicitAccount(id.ed25519) && CurrentLeader(c, s, env) == Leader(Some(env.signer))
    && env.signer in active && active[env.signer].bn254 == id.bn254
    && view.random == s.schedule.lastRandom && s.chain.numBatches + 1 < U64_LIMIT
  }

  /** The contract rebuilds the same keys, in the same order, that the node added up. */
  lemma ReconstructionAgrees(s: State, env: Env, es: seq<BatchMessage>)
    requires Registered(s, env, es)
    ensures SignerKeys(s.registry.active.vals, s.schedule.committees[env.Epoch()], Accounts(es)) == Some(Keys(es))
  {
    Contract.SignerKeysAre(s.registry.active.vals, s.schedule.committees[env.Epoch()], Accounts(es), Keys(es));
  }

  function RootBytes(c: Crypto, s: State): Bytes {
    Merkle.Root(c.sha, s.chain.accumulator).bytes
  }

  /** Whether the contract accepts the leader's post, once its epoch is up to date. */
  ghost predicate Passes(c: Crypto, s: State, env: Env, post: Post)
    requires post.aggregateSignature.Some? && post.aggregateKey.Some?
  {
    PostAllowed(c, s, env, post.aggregateSignature.value, post.aggregateKey.value, post.signers, post.leaderSignature)
  }

  lemma PassesIff(c: Crypto, s: State, env: Env, id: Identity, view: BatchView, st: Store, es: seq<BatchMessage>, post: Post)
    requires LeaderReady(c, s, env, id, view) && Registered(s, env, es) && Sums(c.order, st, es) && es != []
    requires post == Post(st.aggregateSignature, st.aggregateKey, st.signers, Sign(c.order, c.point(LittleEndian(view.random, 32)), id.bn254))
    ensures Passes(c, s, env, post) <==> Verify(c.order, c.point(RootBytes(c, s)), st.aggregateSignature.value, st.aggregateKey.value)
  {
    ReconstructionAgrees(s, env, es);
    ModIdempotent(id.bn254 * c.point(LittleEndian(view.random, 32)), c.order);
  }

  lemma PostHasEntries(c: Crypto, id: Identity, tasks: seq<Task>, i: nat, view: BatchView)
    requires i <= |tasks| && LeaderPost(c, id, SharedAt(c, id, tasks, i), view).Some?
    ensures |Entries(c, id, tasks, i)| == view.committeeSize
  {
    StoreAggregates(c, id, tasks, i);
    AsManySigners(c, Load(SharedAt(c, id, tasks, i)), Entries(c, id, tasks, i));
  }

  /** End to end: after any run of tasks, when the gossiped pairs match the registry and the
      store is for the contract's root, the leader's post is accepted. */
  lemma LeaderPostAccepted(c: Crypto, s: State, s1: State, env: Env, id: Identity, tasks: seq<Task>, i: nat, view: BatchView)
    requires i <= |tasks| && view.committeeSize > 0 && LeaderPost(c, id, SharedAt(c, id, tasks, i), view).Some?
    requires NextEpoch(c, s, env) == Some(s1) && LeaderReady(c, s1, env, id, view)
    requires Registered(s1, env, Entries(c, id, tasks, i))
    requires Load(SharedAt(c, id, tasks, i)).header == RootBytes(c, s1)
    ensures var post := LeaderPost(c, id, SharedAt(c, id, tasks, i), view).value;
            && post.aggregateSignature.Some? && post.aggregateKey.Some?
            && PostBatch(c, s, env, post.aggregateSignature.value, post.aggregateKey.value, post.signers, post.leaderSignature).Some?
  {
    var st, es := Load(SharedAt(c, id, tasks, i)), Entries(c, id, tasks, i);
    var post := LeaderPost(c, id, SharedAt(c, id, tasks, i), view).value;
    StoreAggregates(c, id, tasks, i);
    PostHasEntries(c, id, tasks, i, view);
    AggregateVerifies(c, st, es);
    PassesIff(c, s1, env, id, view, st, es, post);
    assert Passes(c, s1, env, post);
  }

  /** Hash-to-curve stays below the group order and separates the two messages. */
  ghost predicate Separates(c: Crypto, x: Bytes, y: Bytes) {
    c.point(x) < c.order && c.point(y) < c.order && (c.point(x) == c.point(y) ==> x == y)
  }

  /** The post of a leader whose view of the contract is current passes exactly when the
      store it loaded was already for that batch: a leader that has just moved to a new
      batch still posts the previous one's aggregate, which is refused. */
  lemma LeaderPostAcceptedExactly(c: Crypto, s1: State, env: Env, id: Identity, tasks: seq<Task>, i: nat, view: BatchView)
    requires i <= |tasks| && view.committeeSize > 0 && LeaderPost(c, id, SharedAt(c, id, tasks, i), view).Some?
    requires LeaderReady(c, s1, env, id, view) && Registered(s1, env, Entries(c, id, tasks, i)) && view.root == RootBytes(c, s1)
    requires Prime(c.order) && Separates(c, view.root, Load(SharedAt(c, id, tasks, i)).header)
    requires var key := Load(SharedAt(c, id, tasks, i)).aggregateKey; key.Some? ==> key.value % c.order != 0
    ensures var post := LeaderPost(c, id, SharedAt(c, id, tasks, i), view).value;
            && post.aggregateSignature.Some? && post.aggregateKey.Some?
            && (Passes(c, s1, env, post) <==> view.root == Load(SharedAt(c, id, tasks, i)).header)
  {
    var st, es := Load(SharedAt(c, id, tasks, i)), Entries(c, id, tasks, i);
    var post := LeaderPost(c, id, SharedAt(c, id, tasks, i), view).value;
    StoreAggregates(c, id, tasks, i);
    PostHasEntries(c, id, tasks, i, view);
    AggregateVerifies(c, st, es);
    PassesIff(c, s1, env, id, view, st, es, post);
    SignaturePinsMessage(c.order, st.aggregateSignature.value, st.aggregateKey.value, c.point(st.header), c.point(view.root));
  }

  lemma DistinctKeysDistinctAccounts(s: State, env: Env, es: seq<BatchMessage>)
    requires Registered(s, env, es) && NoDup(Keys(es))
    ensures NoDup(Accounts(es))
  {
    forall i, j | 0 <= i < j < |es| ensures Accounts(es)[i] != Accounts(es)[j] {
      assert Keys(es)[i] != Keys(es)[j];
    }
  }

  /** A post carries each committee member's signature exactly once. */
  lemma SignersAreCommittee(c: Crypto, s1: State, env: Env, id: Identity, tasks: seq<Task>, i: nat, view: BatchView)
    requires i <= |tasks| && LeaderPost(c, id, SharedAt(c, id, tasks, i), view).Some?
    requires Registered(s1, env, Entries(c, id, tasks, i))
    requires |s1.schedule.committees[env.Epoch()]| == view.committeeSize && NoDup(s1.schedule.committees[env.Epoch()])
    ensures var signers := LeaderPost(c, id, SharedAt(c, id, tasks, i), view).value.signers;
            NoDup(signers) && Elems(signers) == Elems(s1.schedule.committees[env.Epoch()])
  {
    var es, k := Entries(c, id, tasks, i), s1.schedule.committees[env.Epoch()];
    StoreAggregates(c, id, tasks, i);
    PostHasEntries(c, id, tasks, i, view);
    DistinctKeysDistinctAccounts(s1, env, es);
    NoDupCardinality(Accounts(es));
    NoDupCardinality(k);
    SubsetOfSameSize(Elems(Accounts(es)), Elems(k));
  }

  /** In every reachable contract state, a post that the leader's node makes with the
      contract's own committee size is signed by the whole committee, each member once. */
  lemma ReachableSignersAreCommittee(c: Crypto, h: History, env: Env, id: Identity, tasks: seq<Task>, i: nat, view: BatchView)
    requires IsRun(c, h) && Ordered(h.states[0].registry) && Unstarted(h.states[0].schedule)
    requires NextEpoch(c, h.states[|h.steps|], env).Some?
    requires i <= |tasks| && LeaderPost(c, id, SharedAt(c, id, tasks, i), view).Some?
    requires view.committeeSize == h.states[|h.steps|].config.committeeSize
    requires Registered(NextEpoch(c, h.states[|h.steps|], env).value, env, Entries(c, id, tasks, i))
    ensures var signers := LeaderPost(c, id, SharedAt(c, id, tasks, i), view).value.signers;
            var s1 := NextEpoch(c, h.states[|h.steps|], env).value;
            NoDup(signers) && Elems(signers) == Elems(s1.schedule.committees[env.Epoch()])
  {
    NextCommitteesFull(c, h, env);
    SignersAreCommittee(c, NextEpoch(c, h.states[|h.steps|], env).value, env, id, tasks, i, view);
  }

  // ----- signatures from outside the committee

  /** An active node on the committee of the current epoch. */
  ghost predicate MaySign(s: State, env: Env, a: AccountId) {
    a in s.registry.active.vals && env.Epoch() in s.schedule.committees && a in s.schedule.committees[env.Epoch()]
  }

  /** Without the assumption that gossiped pairs match the registry: a post from a store for
      the contract's root passes exactly when every signer may sign and the registered keys
      of the signers add up to the keys that came with the messages. */
  lemma PassesExactly(c: Crypto, s: State, env: Env, id: Identity, view: BatchView, st: Store, es: seq<BatchMessage>, post: Post)
    requires LeaderReady(c, s, env, id, view) && Sums(c.order, st, es) && Signed(c, st, es) && es != []
    requires st.header == RootBytes(c, s)
    requires post == Post(st.aggregateSignature, st.aggregateKey, st.signers, Sign(c.order, c.point(LittleEndian(view.random, 32)), id.bn254))
    ensures env.Epoch() in s.schedule.committees
    ensures var keys := SignerKeys(s.registry.active.vals, s.schedule.committees[env.Epoch()], Accounts(es));
            && (keys.Some? <==> forall i :: 0 <= i < |es| ==> MaySign(s, env, Accounts(es)[i]))
            && (Passes(c, s, env, post) <==> keys.Some? && Sum(c.order, keys.value) == Sum(c.order, Keys(es)))
  {
    AggregateVerifies(c, st, es);
    ModIdempotent(id.bn254 * c.point(LittleEndian(view.random, 32)), c.order);
  }

  /** The messages in the store stay there as long as the batch stays the same. */
  lemma {:induction false} EntriesStay(c: Crypto, id: Identity, tasks: seq<Task>, i: nat, j: nat)
    requires i <= j <= |tasks|
    requires forall k :: i <= k < j && tasks[k].Batch? ==> tasks[k].view.root == Load(SharedAt(c, id, tasks, i)).header
    ensures Load(SharedAt(c, id, tasks, j)).header == Load(SharedAt(c, id, tasks, i)).header
    ensures Entries(c, id, tasks, i) <= Entries(c, id, tasks, j)
  {
    if i < j { EntriesStay(c, id, tasks, i, j - 1); }
  }

  lemma OutsiderRefused(c: Crypto, s: State, s1: State, env: Env, post: Post, a: AccountId)
    requires NextEpoch(c, s, env) == Some(s1) && a in post.signers && !MaySign(s1, env, a)
    requires post.aggregateSignature.Some? && post.aggregateKey.Some?
    ensures PostBatch(c, s, env, post.aggregateSignature.value, post.aggregateKey.value, post.signers, post.leaderSignature) == None
  {
    assert !Passes(c, s1, env, post);
  }

  /** The p2p job adds any valid signature, whoever made it.  Once one from outside the
      committee is in the store, every later post for the same batch is refused. */
  lemma OutsiderBlocks(c: Crypto, s: State, s1: State, env: Env, id: Identity, tasks: seq<Task>, i: nat, j: nat, view: BatchView, m: BatchMessage)
    requires i <= j <= |tasks| && m in Entries(c, id, tasks, i)
    requires forall k :: i <= k < j && tasks[k].Batch? ==> tasks[k].view.root == Load(SharedAt(c, id, tasks, i)).header
    requires NextEpoch(c, s, env) == Some(s1) && !MaySign(s1, env, ImplicitAccount(m.ed25519))
    requires LeaderPost(c, id, SharedAt(c, id, tasks, j), view).Some?
    ensures var post := LeaderPost(c, id, SharedAt(c, id, tasks, j), view).value;
            && post.aggregateSignature.Some? && post.aggregateKey.Some?
            && PostBatch(c, s, env, post.aggregateSignature.value, post.aggregateKey.value, post.signers, post.leaderSignature) == None
  {
    var es, post := Entries(c, id, tasks, j), LeaderPost(c, id, SharedAt(c, id, tasks, j), view).value;
    EntriesStay(c, id, tasks, i, j);
    StoreAggregates(c, id, tasks, j);
    var k :| 0 <= k < |Entries(c, id, tasks, i)| && Entries(c, id, tasks, i)[k] == m;
    assert es[k] == m && Accounts(es)[k] == ImplicitAccount(m.ed25519);
    OutsiderRefused(c, s, s1, env, post, ImplicitAccount(m.ed25519));
  }
}
