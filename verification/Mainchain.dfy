/** The state of the main-chain contract and the effect of every call on it.

    A call is a partial function from state to state: `None` is a panic, after which
    NEAR discards every change.  Integer arithmetic is checked. */
module Mainchain {
  import opened Bytes
  import opened Collections
  import opened Bn254
  import opened Committee
  import Merkle

  // contracts/src/consts.rs
  const INIT_MINIMUM_STAKE: nat := 100_000_000_000_000_000_000_000_000
  const INIT_EPOCH_DELAY_FOR_ELECTION: nat := 2
  const SLOTS_PER_EPOCH: nat := 32
  const NEAR_BLOCKS_PER_SEDA_SLOT: nat := 10
  const EPOCH_COMMITTEES_LOOKAHEAD: nat := 2

  /** The foreign functions: SHA-256, hash-to-curve (as an exponent), the encoding of
      group elements, and the order of the group. */
  datatype Crypto = Crypto(sha: Sha256, point: Bytes -> nat, encode: Element -> Bytes, order: Order)

  datatype Ed25519Key = Ed25519(bytes: Bytes)

  datatype Config = Config(minimumStake: nat, electionDelay: nat, committeeSize: nat, withdrawDelay: nat)

  datatype Node = Node(multiAddr: string, balance: nat, bn254: Element, ed25519: Ed25519Key)

  datatype WithdrawRequest = WithdrawRequest(amount: nat, epoch: nat)

  datatype Token = Token(accounts: map<AccountId, nat>, totalSupply: nat)

  datatype Registry = Registry(
    active: UnorderedMap<AccountId, Node>,
    inactive: map<AccountId, Node>,
    pending: UnorderedMap<AccountId, nat>,
    byEd25519: map<Ed25519Key, AccountId>,
    byBn254: map<Element, AccountId>,
    deposits: map<(AccountId, Ed25519Key), nat>,
    requests: map<(AccountId, Ed25519Key), WithdrawRequest>,
    lastTotalBalance: nat)

  datatype Schedule = Schedule(
    committees: map<nat, seq<AccountId>>,
    bootstrapping: bool,
    lastProcessedEpoch: nat,
    lastRandom: nat)

  datatype BatchHeader = BatchHeader(height: nat, stateRoot: CryptoHash)
  datatype Batch = Batch(header: BatchHeader, transactions: seq<Request>)

  datatype Chain = Chain(
    accumulator: seq<Request>,
    numBatches: nat,
    idsByHeight: map<nat, CryptoHash>,
    batchById: map<CryptoHash, Batch>)

  datatype State = State(
    dao: AccountId,
    config: Config,
    token: Token,
    registry: Registry,
    schedule: Schedule,
    chain: Chain)

  /** What the host supplies with a call. */
  datatype Env = Env(height: nat, signer: AccountId, signerKey: Ed25519Key, gas: nat) {
    function Slot(): nat { height / NEAR_BLOCKS_PER_SEDA_SLOT }
    function Epoch(): nat { height / (NEAR_BLOCKS_PER_SEDA_SLOT * SLOTS_PER_EPOCH) }
  }

  datatype UpdateConfig = MinimumStake | EpochDelayForElection

  datatype Call =
    | RegisterNode(multiAddr: string, bn254: Element, signature: Element)
    | UnregisterNode(key: Ed25519Key)
    | UpdateNode(newMultiAddr: string)
    | Deposit(amount: U128, key: Ed25519Key)
    | RequestWithdraw(amount: U128, key: Ed25519Key)
    | CancelWithdrawRequest(key: Ed25519Key)
    | Withdraw(amount: U128, key: Ed25519Key)
    | ProcessEpoch
    | PostDataRequest(request: Request)
    | PostSignedBatch(aggregateSignature: Element, aggregateKey: Element, signers: seq<AccountId>, leaderSignature: Element)
    | UpdateConfig(field: UpdateConfig, value: U128)
    // calls of the fungible-token standard that the contract exposes unchanged
    | TokenTransfer(receiver: AccountId, amount: U128)
    | TokenRegister(account: AccountId)
    | TokenUnregister(force: bool)

  datatype Step = Step(env: Env, call: Call)

  // ----- contracts/src/lib.rs

  function New(dao: AccountId, initialSupply: U128, committeeSize: U64, randomSeed: nat): State {
    State(
      dao,
      Config(INIT_MINIMUM_STAKE, INIT_EPOCH_DELAY_FOR_ELECTION, committeeSize, INIT_EPOCH_DELAY_FOR_ELECTION),
      Token(map[dao := initialSupply], initialSupply),
      Registry(UnorderedMap([], map[]), map[], UnorderedMap([], map[]), map[], map[], map[], map[], 0),
      Schedule(map[], true, 0, randomSeed),
      Chain([], 0, map[], map[]))
  }

  // ----- contracts/src/fungible_token.rs

  function Mint(t: Token, a: AccountId, amount: nat): Option<Token> {
    if a in t.accounts && t.accounts[a] + amount < U128_LIMIT
    then Some(t.(accounts := t.accounts[a := t.accounts[a] + amount])) else None
  }

  function Burn(t: Token, a: AccountId, amount: nat): Option<Token> {
    if a in t.accounts && amount <= t.accounts[a]
    then Some(t.(accounts := t.accounts[a := t.accounts[a] - amount])) else None
  }

  function Transfer(t: Token, from: AccountId, to: AccountId, amount: nat): Option<Token> {
    if amount > 0 && from != to && to in t.accounts && from in t.accounts && amount <= t.accounts[from] &&
       t.accounts[to] + amount < U128_LIMIT
    then Some(t.(accounts := t.accounts[from := t.accounts[from] - amount][to := t.accounts[to] + amount]))
    else None
  }

  function RegisterAccount(t: Token, a: AccountId): Token {
    if a in t.accounts then t else t.(accounts := t.accounts[a := 0])
  }

  function UnregisterAccount(t: Token, a: AccountId, force: bool): Option<Token> {
    if a !in t.accounts then Some(t)
    else if (t.accounts[a] == 0 || force) && t.accounts[a] <= t.totalSupply
    then Some(Token(t.accounts - {a}, t.totalSupply - t.accounts[a]))
    else None
  }

  // ----- contracts/src/node_registry.rs

  function NodeOf(r: Registry, a: AccountId): Option<Node> {
    if a in r.active.vals then Some(r.active.vals[a])
    else if a in r.inactive then Some(r.inactive[a])
    else None
  }

  function NodeByEd25519(r: Registry, k: Ed25519Key): Option<Node> {
    if k in r.byEd25519 then NodeOf(r, r.byEd25519[k]) else None
  }

  /** `handle_node_balance_update`: file a node under its new balance. */
  function FileNode(r: Registry, config: Config, epoch: nat, a: AccountId, node: Node): Option<Registry> {
    if node.balance >= config.minimumStake then
      if a in r.active.vals then Some(r.(active := Insert(r.active, a, node)))
      else if epoch + config.electionDelay < U64_LIMIT then
        Some(r.(inactive := r.inactive[a := node], pending := Insert(r.pending, a, epoch + config.electionDelay)))
      else None
    else Some(r.(active := Remove(r.active, a), inactive := r.inactive[a := node]))
  }

  function DepositInto(s: State, env: Env, amount: nat, key: Ed25519Key): Option<State> {
    var token := Burn(s.token, env.signer, amount);
    var node := NodeByEd25519(s.registry, key);
    if token.None? || node.None? || node.value.balance + amount >= U128_LIMIT ||
       s.registry.lastTotalBalance + amount >= U128_LIMIT then None
    else
      match FileNode(s.registry, s.config, env.Epoch(), s.registry.byEd25519[key],
                     node.value.(balance := node.value.balance + amount))
      case None => None
      case Some(r) =>
        Some(s.(token := token.value,
                registry := r.(deposits := r.deposits[(env.signer, key) := amount],
                               lastTotalBalance := r.lastTotalBalance + amount)))
  }

  function WithdrawFrom(s: State, env: Env, amount: nat, key: Ed25519Key): Option<State> {
    var node := NodeByEd25519(s.registry, key);
    var entry := (env.signer, key);
    var token := Mint(s.token, env.signer, amount);
    if amount == 0 || node.None? || node.value.balance < amount ||
       entry !in s.registry.deposits || s.registry.deposits[entry] < amount ||
       entry !in s.registry.requests || s.registry.requests[entry].epoch > env.Epoch() ||
       token.None? || s.registry.lastTotalBalance < amount then None
    else
      match FileNode(s.registry, s.config, env.Epoch(), s.registry.byEd25519[key],
                     node.value.(balance := node.value.balance - amount))
      case None => None
      case Some(r) =>
        Some(s.(token := token.value,
                registry := r.(deposits := r.deposits[entry := r.deposits[entry] - amount],
                               requests := r.requests - {entry},
                               lastTotalBalance := r.lastTotalBalance - amount)))
  }

  function RequestWithdrawal(s: State, env: Env, amount: nat, key: Ed25519Key): Option<State> {
    var node := NodeByEd25519(s.registry, key);
    var entry := (env.signer, key);
    if amount == 0 || node.None? || node.value.balance < amount ||
       entry !in s.registry.deposits || s.registry.deposits[entry] < amount ||
       entry in s.registry.requests || env.Epoch() + s.config.withdrawDelay >= U64_LIMIT then None
    else
      var request := WithdrawRequest(amount, env.Epoch() + s.config.withdrawDelay);
      Some(s.(registry := s.registry.(requests := s.registry.requests[entry := request])))
  }

  function CancelRequest(s: State, env: Env, key: Ed25519Key): Option<State> {
    if key !in s.registry.byEd25519 then None
    else Some(s.(registry := s.registry.(requests := s.registry.requests - {(env.signer, key)})))
  }

  function Register(c: Crypto, s: State, env: Env, multiAddr: string, bn254: Element, signature: Element): Option<State> {
    var r := s.registry;
    if bn254 in r.byBn254 || env.signerKey in r.byEd25519 ||
       !Verify(c.order, c.point(env.signer.ascii), signature, bn254) then None
    else
      var node := Node(multiAddr, 0, bn254, env.signerKey);
      Some(s.(registry := r.(inactive := r.inactive[env.signer := node],
                             byBn254 := r.byBn254[bn254 := env.signer],
                             byEd25519 := r.byEd25519[env.signerKey := env.signer])))
  }

  function Unregister(s: State, env: Env, key: Ed25519Key): Option<State> {
    var node := NodeByEd25519(s.registry, key);
    if env.signerKey != key || node.None? || node.value.balance != 0 then None
    else Some(s.(registry := s.registry.(inactive := s.registry.inactive - {s.registry.byEd25519[key]})))
  }

  function UpdateAddress(s: State, env: Env, newMultiAddr: string): Option<State> {
    match NodeOf(s.registry, env.signer)
    case None => None
    case Some(known) =>
      var node := known.(multiAddr := newMultiAddr);
      var r := s.registry;
      Some(s.(registry := if env.signer in r.active.vals then r.(active := Insert(r.active, env.signer, node))
                          else r.(inactive := r.inactive[env.signer := node])))
  }

  // ----- contracts/src/dao.rs

  function SetConfig(s: State, env: Env, field: UpdateConfig, value: U128): Option<State> {
    if env.signer != s.dao then None
    else
      match field
      case MinimumStake => Some(s.(config := s.config.(minimumStake := value)))
      case EpochDelayForElection => Some(s.(config := s.config.(electionDelay := value % U64_LIMIT)))
  }

  // ----- contracts/src/epoch.rs

  /** The pending accounts whose epoch has come, in storage order. */
  function Due(keys: seq<AccountId>, vals: map<AccountId, nat>, epoch: nat): (d: seq<AccountId>)
    ensures forall a :: a in d <==> a in keys && a in vals && vals[a] <= epoch
  {
    if keys == [] then [] else
      (if keys[0] in vals && vals[keys[0]] <= epoch then [keys[0]] else []) + Due(keys[1..], vals, epoch)
  }

  function Activate(r: Registry, a: AccountId): Registry
    requires a in r.inactive
  {
    r.(active := Insert(r.active, a, r.inactive[a]), inactive := r.inactive - {a}, pending := Remove(r.pending, a))
  }

  /** The migration loop; it panics at an account that has no inactive record. */
  function Migrate(r: Registry, due: seq<AccountId>): Option<Registry>
    decreases |due|
  {
    if due == [] then Some(r)
    else if due[0] !in r.inactive then None
    else Migrate(Activate(r, due[0]), due[1..])
  }

  /** Selecting committees once the registry has been migrated: three of them when
      bootstrapping ends, one otherwise. */
  function Elect(c: Crypto, schedule: Schedule, config: Config, validators: seq<AccountId>, epoch: nat, gas: nat): Option<Schedule> {
    if schedule.bootstrapping && |validators| < config.committeeSize then Some(schedule)
    else
      match CommitteeOf(PrnStream(c.sha, schedule.lastRandom), validators, config.committeeSize, gas)
      case None => None
      case Some(committee) =>
        var committees := if schedule.bootstrapping
                          then schedule.committees[epoch := committee][epoch + 1 := committee]
                          else schedule.committees;
        Some(Schedule(committees[epoch + EPOCH_COMMITTEES_LOOKAHEAD := committee], false, epoch, schedule.lastRandom))
  }

  function NextEpoch(c: Crypto, s: State, env: Env): Option<State> {
    var epoch := env.Epoch();
    if epoch <= s.schedule.lastProcessedEpoch then Some(s)
    else
      match Migrate(s.registry, Due(s.registry.pending.keys, s.registry.pending.vals, epoch))
      case None => None
      case Some(r) =>
        match Elect(c, s.schedule, s.config, r.active.keys, epoch, env.gas)
        case None => None
        case Some(schedule) => Some(s.(registry := r, schedule := schedule))
  }

  // ----- contracts/src/committee.rs

  function CommitteeAt(s: State, epoch: nat): Option<seq<AccountId>> {
    if epoch in s.schedule.committees then Some(s.schedule.committees[epoch]) else None
  }

  function CurrentLeader(c: Crypto, s: State, env: Env): Leader {
    SlotLeader(c.sha, CommitteeAt(s, env.Epoch()), s.config.committeeSize, s.schedule.lastRandom, env.Slot())
  }

  // ----- contracts/src/batch.rs

  function LatestBatchId(chain: Chain): CryptoHash {
    if chain.numBatches in chain.idsByHeight then chain.idsByHeight[chain.numBatches] else ZERO_HASH
  }

  /** A batch whose transactions are given by their Merkle root. */
  datatype MerklizedBatch = MerklizedBatch(prevRoot: CryptoHash, header: BatchHeader, transactions: CryptoHash)

  function BorshBatch(b: MerklizedBatch): Bytes {
    b.prevRoot.bytes + LittleEndian(b.header.height, 8) + b.header.stateRoot.bytes + LittleEndian(32, 4) + b.transactions.bytes
  }

  type BatchHash = MerklizedBatch -> CryptoHash

  function HashBatch(sha: Sha256): BatchHash {
    b => sha(BorshBatch(b))
  }

  function AppendBatch(hash: BatchHash, root: CryptoHash, chain: Chain): Chain {
    var header := BatchHeader(chain.numBatches + 1, ZERO_HASH);
    var id := hash(MerklizedBatch(LatestBatchId(chain), header, root));
    Chain([], chain.numBatches + 1, chain.idsByHeight[chain.numBatches + 1 := id],
          chain.batchById[id := Batch(header, chain.accumulator)])
  }

  /** The key of each signer, when all of them sit on the committee and are active. */
  function SignerKeys(active: map<AccountId, Node>, committee: seq<AccountId>, signers: seq<AccountId>): Option<seq<Element>> {
    if forall a :: a in signers ==> a in committee && a in active
    then Some(seq(|signers|, i requires 0 <= i < |signers| && signers[i] in active => active[signers[i]].bn254))
    else None
  }

  /** What a batch must satisfy once the epoch is up to date. */
  predicate PostAllowed(c: Crypto, s: State, env: Env, aggregateSignature: Element, aggregateKey: Element,
                        signers: seq<AccountId>, leaderSignature: Element)
  {
    var active := s.registry.active.vals;
    && CurrentLeader(c, s, env) == Leader(Some(env.signer)) && env.signer in active
    && Verify(c.order, c.point(LittleEndian(s.schedule.lastRandom, 32)), leaderSignature, active[env.signer].bn254)
    && signers != []
    && var keys := SignerKeys(active, s.schedule.committees[env.Epoch()], signers);
    && keys.Some? && Sum(c.order, keys.value) == aggregateKey
    && Verify(c.order, c.point(Merkle.Root(c.sha, s.chain.accumulator).bytes), aggregateSignature, aggregateKey)
    && s.chain.numBatches + 1 < U64_LIMIT
  }

  function NextRandom(c: Crypto, env: Env, leaderSignature: Element): nat {
    FromLittleEndian(c.sha(c.encode(leaderSignature) + LittleEndian(env.Slot(), 8)).bytes)
  }

  function ChainAfter(c: Crypto, chain: Chain): Chain {
    AppendBatch(HashBatch(c.sha), Merkle.Root(c.sha, chain.accumulator), chain)
  }

  function PostBatch(c: Crypto, s: State, env: Env, aggregateSignature: Element, aggregateKey: Element,
                     signers: seq<AccountId>, leaderSignature: Element): Option<State>
  {
    match NextEpoch(c, s, env)
    case None => None
    case Some(s1) =>
      if !PostAllowed(c, s1, env, aggregateSignature, aggregateKey, signers, leaderSignature) then None
      else
        Some(s1.(schedule := s1.schedule.(lastRandom := NextRandom(c, env, leaderSignature)), chain := ChainAfter(c, s1.chain)))
  }

  // ----- the contract as a state machine

  function Apply(c: Crypto, s: State, step: Step): Option<State> {
    var env := step.env;
    match step.call
    case RegisterNode(addr, key, sig) => Register(c, s, env, addr, key, sig)
    case UnregisterNode(key) => Unregister(s, env, key)
    case UpdateNode(addr) => UpdateAddress(s, env, addr)
    case Deposit(amount, key) => DepositInto(s, env, amount, key)
    case RequestWithdraw(amount, key) => RequestWithdrawal(s, env, amount, key)
    case CancelWithdrawRequest(key) => CancelRequest(s, env, key)
    case Withdraw(amount, key) => WithdrawFrom(s, env, amount, key)
    case ProcessEpoch => NextEpoch(c, s, env)
    case PostDataRequest(request) => Some(s.(chain := s.chain.(accumulator := s.chain.accumulator + [request])))
    case PostSignedBatch(sig, key, signers, leaderSig) => PostBatch(c, s, env, sig, key, signers, leaderSig)
    case UpdateConfig(field, value) => SetConfig(s, env, field, value)
    case TokenTransfer(to, amount) =>
      var t := Transfer(s.token, env.signer, to, amount);
      if t.Some? then Some(s.(token := t.value)) else None
    case TokenRegister(a) => Some(s.(token := RegisterAccount(s.token, a)))
    case TokenUnregister(force) =>
      var t := UnregisterAccount(s.token, env.signer, force);
      if t.Some? then Some(s.(token := t.value)) else None
  }

  ghost predicate IsBalanceUpdate(call: Call) { call.Deposit? || call.Withdraw? }

  ghost predicate IsEpochStep(call: Call) { call.ProcessEpoch? || call.PostSignedBatch? }

  /** What a signed batch adds to the epoch change that it begins with. */
  ghost predicate OnlyBatchAdded(s1: State, s': State) {
    s' == s1.(schedule := s1.schedule.(lastRandom := s'.schedule.lastRandom), chain := s'.chain)
  }

  lemma PostBatchIs(c: Crypto, s: State, env: Env, sig: Element, key: Element, signers: seq<AccountId>, leaderSig: Element)
    requires PostBatch(c, s, env, sig, key, signers, leaderSig).Some?
    ensures NextEpoch(c, s, env).Some?
    ensures OnlyBatchAdded(NextEpoch(c, s, env).value, PostBatch(c, s, env, sig, key, signers, leaderSig).value)
  {
  }

  /** Both calls that change the epoch do so by `NextEpoch`. */
  lemma EpochStepIs(c: Crypto, s: State, step: Step)
    requires IsEpochStep(step.call) && Apply(c, s, step).Some?
    ensures NextEpoch(c, s, step.env).Some?
    ensures OnlyBatchAdded(NextEpoch(c, s, step.env).value, Apply(c, s, step).value)
  {
    match step.call
    case ProcessEpoch =>
    case PostSignedBatch(sig, key, signers, leaderSig) => PostBatchIs(c, s, step.env, sig, key, signers, leaderSig);
  }

  // ----- runs

  /** A run: the states it passes through, the calls between them, and which of the
      calls were accepted. */
  datatype History = History(states: seq<State>, steps: seq<Step>, accepted: seq<bool>)

  /** An accepted call takes the contract to its next state; a refused call leaves the
      state as it was. */
  ghost predicate Link(c: Crypto, h: History, i: nat)
    requires i < |h.steps| == |h.accepted| && |h.states| == |h.steps| + 1
  {
    var r := Apply(c, h.states[i], h.steps[i]);
    if h.accepted[i] then r == Some(h.states[i + 1]) else r == None && h.states[i + 1] == h.states[i]
  }

  ghost predicate IsRun(c: Crypto, h: History) {
    && |h.steps| == |h.accepted| && |h.states| == |h.steps| + 1
    && forall i :: 0 <= i < |h.steps| ==> Link(c, h, i)
  }

  function Extend(c: Crypto, h: History, step: Step): History
    requires h.states != []
  {
    var s := h.states[|h.states| - 1];
    var r := Apply(c, s, step);
    History(h.states + [if r.Some? then r.value else s], h.steps + [step], h.accepted + [r.Some?])
  }

  lemma LinkPrefix(c: Crypto, h: History, h': History, i: nat)
    requires i < |h.steps| == |h.accepted| && |h.states| == |h.steps| + 1
    requires i < |h'.steps| == |h'.accepted| && |h'.states| == |h'.steps| + 1
    requires h.states[i] == h'.states[i] && h.states[i + 1] == h'.states[i + 1]
    requires h.steps[i] == h'.steps[i] && h.accepted[i] == h'.accepted[i] && Link(c, h, i)
    ensures Link(c, h', i)
  {
  }

  lemma ExtendIsRun(c: Crypto, h: History, step: Step)
    requires IsRun(c, h)
    ensures IsRun(c, Extend(c, h, step))
  {
    var h' := Extend(c, h, step);
    forall i | 0 <= i < |h'.steps| ensures Link(c, h', i) {
      if i < |h.steps| { LinkPrefix(c, h, h', i); }
    }
  }

  lemma ExtendEpoch(c: Crypto, h: History, env: Env) returns (h': History)
    requires IsRun(c, h) && NextEpoch(c, h.states[|h.steps|], env).Some?
    ensures IsRun(c, h') && h'.steps == h.steps + [Step(env, ProcessEpoch)]
    ensures h'.states == h.states + [NextEpoch(c, h.states[|h.steps|], env).value]
  {
    ExtendIsRun(c, h, Step(env, ProcessEpoch));
    h' := Extend(c, h, Step(env, ProcessEpoch));
  }

  /** Every sequence of calls has its run. */
  lemma {:induction false} RunExists(c: Crypto, s: State, steps: seq<Step>) returns (h: History)
    ensures IsRun(c, h) && h.steps == steps && h.states[0] == s
  {
    if steps == [] {
      h := History([s], [], []);
    } else {
      var before := RunExists(c, s, steps[..|steps| - 1]);
      ExtendIsRun(c, before, steps[|steps| - 1]);
      h := Extend(c, before, steps[|steps| - 1]);
      assert h.steps == steps[..|steps| - 1] + [steps[|steps| - 1]];
    }
  }
}
