/** Runs of the contract: no token is created or lost, and every node stays findable
    under its keys. */
module Conservation {
  import opened Bytes
  import opened Collections
  import opened Bn254
  import opened Committee
  import opened Mainchain
  import opened Staking

  /** Operators of nodes sign with one key per account, as implicit accounts do. */
  type KeyOf = AccountId -> Ed25519Key

  ghost predicate SignsWithOwnKey(step: Step, keyOf: KeyOf) {
    step.call.RegisterNode? ==> step.env.signerKey == keyOf(step.env.signer)
  }

  ghost predicate OneKeyPerAccount(steps: seq<Step>, keyOf: KeyOf) {
    forall i :: 0 <= i < |steps| ==> SignsWithOwnKey(steps[i], keyOf)
  }

  ghost predicate Keyed(r: Registry, keyOf: KeyOf) {
    forall k :: k in r.byEd25519 ==> keyOf(r.byEd25519[k]) == k
  }

  /** Liquid tokens and stake add up to the supply, the recorded total is the stake, and
      the supply fits 128 bits. */
  ghost predicate Conserved(s: State) {
    && MapSum(s.token.accounts) + s.registry.lastTotalBalance == s.token.totalSupply
    && s.registry.lastTotalBalance == Staked(s.registry)
    && s.token.totalSupply < U128_LIMIT
  }

  ghost predicate Inv(s: State, keyOf: KeyOf) {
    WellFormed(s.registry) && Keyed(s.registry, keyOf) && Conserved(s)
  }

  // ----- registration

  lemma NodesAreIndexed(r: Registry, a: AccountId)
    requires WellFormed(r)
    ensures NodeOf(r, a).Some? ==> Indexed(r, a)
  {
  }

  lemma RegisterEffect(c: Crypto, s: State, env: Env, addr: string, key: Element, sig: Element)
    requires WellFormed(s.registry) && !Indexed(s.registry, env.signer)
    requires Register(c, s, env, addr, key, sig).Some?
    ensures var r, r' := s.registry, Register(c, s, env, addr, key, sig).value.registry;
            && NodeOf(r, env.signer).None?
            && (forall b :: NodeOf(r', b) == if b == env.signer then Some(Node(addr, 0, key, env.signerKey)) else NodeOf(r, b))
            && Staked(r') == Staked(r)
  {
    var r := s.registry;
    NodesAreIndexed(r, env.signer);
    BalancesUpdate(r.inactive, env.signer, Node(addr, 0, key, env.signerKey));
  }

  lemma RegisterWellFormed(c: Crypto, s: State, env: Env, addr: string, key: Element, sig: Element)
    requires WellFormed(s.registry) && !Indexed(s.registry, env.signer)
    requires Register(c, s, env, addr, key, sig).Some?
    ensures WellFormed(Register(c, s, env, addr, key, sig).value.registry)
  {
    RegisterEffect(c, s, env, addr, key, sig);
    var r, r' := s.registry, Register(c, s, env, addr, key, sig).value.registry;
    assert r'.byEd25519[env.signerKey] == env.signer;
    forall b | Indexed(r, b) ensures Indexed(r', b) {
      var k :| k in r.byEd25519 && r.byEd25519[k] == b;
      assert r'.byEd25519[k] == b;
    }
  }

  /** `register_node` compares keys but not accounts: a registration keeps the registry
      well formed exactly when its account never registered before. */
  lemma RegisterKeepsRegistryExactly(c: Crypto, s: State, env: Env, addr: string, key: Element, sig: Element)
    requires WellFormed(s.registry) && Register(c, s, env, addr, key, sig).Some?
    ensures WellFormed(Register(c, s, env, addr, key, sig).value.registry) <==> !Indexed(s.registry, env.signer)
  {
    var r, r' := s.registry, Register(c, s, env, addr, key, sig).value.registry;
    if Indexed(r, env.signer) {
      var k :| k in r.byEd25519 && r.byEd25519[k] == env.signer;
      assert k != env.signerKey;
      assert r'.byEd25519[k] == env.signer;
      if env.signer !in r.active.vals {
        assert NodeOf(r', env.signer).value.ed25519 == env.signerKey;
      }
    } else {
      RegisterWellFormed(c, s, env, addr, key, sig);
    }
  }

  lemma OwnKeyIsFresh(r: Registry, keyOf: KeyOf, a: AccountId)
    requires Keyed(r, keyOf) && keyOf(a) !in r.byEd25519
    ensures !Indexed(r, a)
  {
  }

  // ----- unregistration and address change

  lemma UnregisterEffect(s: State, env: Env, key: Ed25519Key)
    requires WellFormed(s.registry) && Unregister(s, env, key).Some?
    ensures var r, r' := s.registry, Unregister(s, env, key).value.registry;
            && WellFormed(r')
            && (forall b :: NodeOf(r', b) == if b == r.byEd25519[key] && b !in r.active.vals then None else NodeOf(r, b))
            && Staked(r') == Staked(r)
  {
    RemoveEmptyNode(s.registry, s.registry.byEd25519[key]);
  }

  ghost function WithoutInactive(r: Registry, a: AccountId): Registry {
    r.(inactive := r.inactive - {a})
  }

  lemma NodesWithout(r: Registry, a: AccountId, b: AccountId)
    ensures NodeOf(WithoutInactive(r, a), b) == if b == a && b !in r.active.vals then None else NodeOf(r, b)
  {
  }

  lemma RemoveEmptyNode(r: Registry, a: AccountId)
    requires WellFormed(r) && NodeOf(r, a).Some? && NodeOf(r, a).value.balance == 0
    ensures var r' := WithoutInactive(r, a);
            && WellFormed(r')
            && (forall b :: NodeOf(r', b) == if b == a && b !in r.active.vals then None else NodeOf(r, b))
            && Staked(r') == Staked(r)
  {
    var r' := WithoutInactive(r, a);
    forall b ensures NodeOf(r', b) == if b == a && b !in r.active.vals then None else NodeOf(r, b) { NodesWithout(r, a, b); }
    BalancesRemove(r.inactive, a);
    assert WellFormed(r') by { WellFormedFrom(r, r'); }
  }

  lemma UpdateAddressEffect(s: State, env: Env, addr: string)
    requires WellFormed(s.registry) && UpdateAddress(s, env, addr).Some?
    ensures var r, r' := s.registry, UpdateAddress(s, env, addr).value.registry;
            && WellFormed(r')
            && (forall b :: NodeOf(r', b) == if b == env.signer then Some(NodeOf(r, b).value.(multiAddr := addr)) else NodeOf(r, b))
            && Staked(r') == Staked(r)
  {
    ReplaceNode(s.registry, env.signer, NodeOf(s.registry, env.signer).value.(multiAddr := addr));
  }

  /** A node's record replaced where it is filed. */
  ghost function WithNode(r: Registry, a: AccountId, node: Node): Registry {
    if a in r.active.vals then r.(active := Insert(r.active, a, node)) else r.(inactive := r.inactive[a := node])
  }

  lemma NodesWith(r: Registry, a: AccountId, node: Node, b: AccountId)
    ensures NodeOf(WithNode(r, a, node), b) == if b == a then Some(node) else NodeOf(r, b)
  {
  }

  lemma ReplaceNode(r: Registry, a: AccountId, node: Node)
    requires WellFormed(r) && NodeOf(r, a).Some? && node == NodeOf(r, a).value.(multiAddr := node.multiAddr)
    ensures var r' := WithNode(r, a, node);
            && WellFormed(r')
            && (forall b :: NodeOf(r', b) == if b == a then Some(node) else NodeOf(r, b))
            && Staked(r') == Staked(r)
  {
    var r' := WithNode(r, a, node);
    StakeWith(r, a, node);
    WellFormedWith(r, a, node);
    forall b ensures NodeOf(r', b) == if b == a then Some(node) else NodeOf(r, b) { NodesWith(r, a, node, b); }
  }

  lemma WellFormedWith(r: Registry, a: AccountId, node: Node)
    requires WellFormed(r) && NodeOf(r, a).Some? && SameKeys(Some(node), NodeOf(r, a))
    ensures WellFormed(WithNode(r, a, node))
  {
    var r' := WithNode(r, a, node);
    forall b | NodeOf(r', b).Some? ensures SameKeys(NodeOf(r', b), NodeOf(r, b)) { NodesWith(r, a, node, b); }
    WellFormedFrom(r, r');
  }

  lemma StakeWith(r: Registry, a: AccountId, node: Node)
    requires NodeOf(r, a).Some? && NodeOf(r, a).value.balance == node.balance
    ensures Staked(WithNode(r, a, node)) == Staked(r)
  {
    BalancesUpdate(r.active.vals, a, node);
    BalancesUpdate(r.inactive, a, node);
  }

  // ----- deposits and withdrawals

  /** Deposits, requests and the recorded total play no part in well-formedness. */
  lemma LedgerFrame(r: Registry, r': Registry)
    requires r' == r.(deposits := r'.deposits, requests := r'.requests, lastTotalBalance := r'.lastTotalBalance)
    ensures WellFormed(r) ==> WellFormed(r')
    ensures Staked(r') == Staked(r) && forall b :: NodeOf(r', b) == NodeOf(r, b)
  {
    if WellFormed(r) { WellFormedFrom(r, r'); }
  }

  /** Tokens moved between an account and a node, the recorded total with them. */
  ghost predicate Moved(s: State, s': State, epoch: nat, a: AccountId, node: Node, node': Node) {
    && NodeOf(s.registry, a) == Some(node) && node' == node.(balance := node'.balance)
    && FileNode(s.registry, s.config, epoch, a, node').Some?
    && s'.registry == FileNode(s.registry, s.config, epoch, a, node').value.(
         deposits := s'.registry.deposits, requests := s'.registry.requests, lastTotalBalance := s'.registry.lastTotalBalance)
    && s'.token.totalSupply == s.token.totalSupply
    && s'.registry.lastTotalBalance + node.balance == s.registry.lastTotalBalance + node'.balance
    && MapSum(s'.token.accounts) + node'.balance == MapSum(s.token.accounts) + node.balance
  }

  ghost predicate NodeChanged(r: Registry, r': Registry, a: AccountId, node': Node) {
    forall b :: NodeOf(r', b) == if b == a then Some(node') else NodeOf(r, b)
  }

  lemma StakeMoved(s: State, s': State, epoch: nat, a: AccountId, node: Node, node': Node, keyOf: KeyOf)
    requires Inv(s, keyOf) && Moved(s, s', epoch, a, node, node')
    ensures Inv(s', keyOf) && SameIndexes(s.registry, s'.registry) && NodeChanged(s.registry, s'.registry, a, node')
  {
    var filed := FileNode(s.registry, s.config, epoch, a, node').value;
    FileNodeEffect(s.registry, s.config, epoch, a, node, node');
    FileNodeWellFormed(s.registry, s.config, epoch, a, node, node');
    LedgerFrame(filed, s'.registry);
  }

  function AfterDeposit(s: State, amount: nat, key: Ed25519Key): Node
    requires NodeByEd25519(s.registry, key).Some?
  {
    var node := NodeByEd25519(s.registry, key).value;
    node.(balance := node.balance + amount)
  }

  lemma DepositMoves(s: State, env: Env, amount: nat, key: Ed25519Key)
    requires DepositInto(s, env, amount, key).Some?
    ensures NodeByEd25519(s.registry, key).Some?
    ensures var s' := DepositInto(s, env, amount, key).value;
            && Moved(s, s', env.Epoch(), s.registry.byEd25519[key], NodeByEd25519(s.registry, key).value, AfterDeposit(s, amount, key))
            && s'.registry.deposits == s.registry.deposits[(env.signer, key) := amount]
  {
    MapSumUpdate(s.token.accounts, env.signer, s.token.accounts[env.signer] - amount);
  }

  lemma DepositEffect(s: State, env: Env, amount: nat, key: Ed25519Key, keyOf: KeyOf)
    requires Inv(s, keyOf) && DepositInto(s, env, amount, key).Some?
    ensures NodeByEd25519(s.registry, key).Some?
    ensures var s' := DepositInto(s, env, amount, key).value;
            && Inv(s', keyOf) && SameIndexes(s.registry, s'.registry)
            && NodeChanged(s.registry, s'.registry, s.registry.byEd25519[key], AfterDeposit(s, amount, key))
  {
    DepositMoves(s, env, amount, key);
    StakeMoved(s, DepositInto(s, env, amount, key).value, env.Epoch(), s.registry.byEd25519[key],
               NodeByEd25519(s.registry, key).value, AfterDeposit(s, amount, key), keyOf);
  }

  function AfterWithdraw(s: State, amount: nat, key: Ed25519Key): Node
    requires NodeByEd25519(s.registry, key).Some? && amount <= NodeByEd25519(s.registry, key).value.balance
  {
    var node := NodeByEd25519(s.registry, key).value;
    node.(balance := node.balance - amount)
  }

  lemma WithdrawMoves(s: State, env: Env, amount: nat, key: Ed25519Key)
    requires WithdrawFrom(s, env, amount, key).Some?
    ensures NodeByEd25519(s.registry, key).Some? && amount <= NodeByEd25519(s.registry, key).value.balance
    ensures var s' := WithdrawFrom(s, env, amount, key).value;
            var entry := (env.signer, key);
            && Moved(s, s', env.Epoch(), s.registry.byEd25519[key], NodeByEd25519(s.registry, key).value, AfterWithdraw(s, amount, key))
            && entry in s.registry.deposits && amount <= s.registry.deposits[entry]
            && s'.registry.deposits == s.registry.deposits[entry := s.registry.deposits[entry] - amount]
  {
    MapSumUpdate(s.token.accounts, env.signer, s.token.accounts[env.signer] + amount);
  }

  lemma WithdrawEffect(s: State, env: Env, amount: nat, key: Ed25519Key, keyOf: KeyOf)
    requires Inv(s, keyOf) && WithdrawFrom(s, env, amount, key).Some?
    ensures NodeByEd25519(s.registry, key).Some? && amount <= NodeByEd25519(s.registry, key).value.balance
    ensures var s' := WithdrawFrom(s, env, amount, key).value;
            && Inv(s', keyOf) && SameIndexes(s.registry, s'.registry)
            && NodeChanged(s.registry, s'.registry, s.registry.byEd25519[key], AfterWithdraw(s, amount, key))
  {
    WithdrawMoves(s, env, amount, key);
    StakeMoved(s, WithdrawFrom(s, env, amount, key).value, env.Epoch(), s.registry.byEd25519[key],
               NodeByEd25519(s.registry, key).value, AfterWithdraw(s, amount, key), keyOf);
  }

  /** The balance that an accepted balance update leaves. */
  ghost function Adjusted(balance: nat, call: Call): int
    requires IsBalanceUpdate(call)
  {
    if call.Deposit? then balance + call.amount else balance - call.amount
  }

  lemma UpdateMoves(c: Crypto, s: State, step: Step) returns (node: Node, node': Node)
    requires IsBalanceUpdate(step.call) && Apply(c, s, step).Some?
    ensures NodeByEd25519(s.registry, step.call.key) == Some(node) && node'.balance == Adjusted(node.balance, step.call)
    ensures Moved(s, Apply(c, s, step).value, step.env.Epoch(), s.registry.byEd25519[step.call.key], node, node')
    ensures Apply(c, s, step).value.config == s.config
  {
    var amount, key := step.call.amount, step.call.key;
    if step.call.Deposit? {
      DepositMoves(s, step.env, amount, key);
      node, node' := NodeByEd25519(s.registry, key).value, AfterDeposit(s, amount, key);
    } else {
      WithdrawMoves(s, step.env, amount, key);
      node, node' := NodeByEd25519(s.registry, key).value, AfterWithdraw(s, amount, key);
    }
  }

  // ----- the token

  lemma TransferKeepsSum(t: Token, from: AccountId, to: AccountId, amount: nat)
    requires Transfer(t, from, to, amount).Some?
    ensures var t' := Transfer(t, from, to, amount).value;
            t'.totalSupply == t.totalSupply && MapSum(t'.accounts) == MapSum(t.accounts)
  {
    MapSumUpdate(t.accounts, from, t.accounts[from] - amount);
    MapSumUpdate(t.accounts[from := t.accounts[from] - amount], to, t.accounts[to] + amount);
  }

  lemma TokenAccountsKeepSum(t: Token, a: AccountId, force: bool)
    ensures MapSum(RegisterAccount(t, a).accounts) == MapSum(t.accounts)
    ensures var t' := UnregisterAccount(t, a, force);
            t'.Some? ==>
              && t'.value.totalSupply <= t.totalSupply
              && MapSum(t'.value.accounts) + t.totalSupply == MapSum(t.accounts) + t'.value.totalSupply
  {
    if a in t.accounts {
      MapSumRemove(t.accounts, a);
    } else {
      MapSumUpdate(t.accounts, a, 0);
    }
  }

  // ----- every step

  lemma RegistryStepKeepsInv(c: Crypto, s: State, step: Step, keyOf: KeyOf)
    requires Inv(s, keyOf) && SignsWithOwnKey(step, keyOf) && Apply(c, s, step).Some?
    requires step.call.RegisterNode? || step.call.UnregisterNode? || step.call.UpdateNode?
    ensures Inv(Apply(c, s, step).value, keyOf)
  {
    var env := step.env;
    match step.call
    case RegisterNode(addr, key, sig) =>
      OwnKeyIsFresh(s.registry, keyOf, env.signer);
      RegisterEffect(c, s, env, addr, key, sig);
      RegisterWellFormed(c, s, env, addr, key, sig);
    case UnregisterNode(key) => UnregisterEffect(s, env, key);
    case UpdateNode(addr) => UpdateAddressEffect(s, env, addr);
  }

  lemma TokenStepKeepsInv(c: Crypto, s: State, step: Step, keyOf: KeyOf)
    requires Inv(s, keyOf) && Apply(c, s, step).Some?
    requires step.call.TokenTransfer? || step.call.TokenRegister? || step.call.TokenUnregister?
    ensures Inv(Apply(c, s, step).value, keyOf)
  {
    match step.call
    case TokenTransfer(to, amount) => TransferKeepsSum(s.token, step.env.signer, to, amount);
    case TokenRegister(a) => TokenAccountsKeepSum(s.token, a, false);
    case TokenUnregister(force) => TokenAccountsKeepSum(s.token, step.env.signer, force);
    TokenFrame(s, Apply(c, s, step).value, keyOf);
  }

  lemma TokenFrame(s: State, s': State, keyOf: KeyOf)
    requires Inv(s, keyOf) && s' == s.(token := s'.token)
    requires s'.token.totalSupply <= s.token.totalSupply
    requires MapSum(s'.token.accounts) + s.token.totalSupply == MapSum(s.token.accounts) + s'.token.totalSupply
    ensures Inv(s', keyOf)
  {
  }

  lemma RequestStepKeepsInv(c: Crypto, s: State, step: Step, keyOf: KeyOf)
    requires Inv(s, keyOf) && Apply(c, s, step).Some?
    requires step.call.RequestWithdraw? || step.call.CancelWithdrawRequest?
    ensures Inv(Apply(c, s, step).value, keyOf)
  {
    LedgerFrame(s.registry, Apply(c, s, step).value.registry);
  }

  lemma EpochStepKeepsInv(c: Crypto, s: State, step: Step, keyOf: KeyOf)
    requires Inv(s, keyOf) && Apply(c, s, step).Some?
    requires IsEpochStep(step.call)
    ensures Inv(Apply(c, s, step).value, keyOf)
  {
    EpochStepIs(c, s, step);
    NextEpochKeepsNodes(c, s, step.env);
  }

  lemma StepKeepsInv(c: Crypto, s: State, step: Step, keyOf: KeyOf)
    requires Inv(s, keyOf) && SignsWithOwnKey(step, keyOf) && Apply(c, s, step).Some?
    ensures Inv(Apply(c, s, step).value, keyOf)
  {
    match step.call
    case RegisterNode(_, _, _) => RegistryStepKeepsInv(c, s, step, keyOf);
    case UnregisterNode(_) => RegistryStepKeepsInv(c, s, step, keyOf);
    case UpdateNode(_) => RegistryStepKeepsInv(c, s, step, keyOf);
    case Deposit(amount, key) => DepositEffect(s, step.env, amount, key, keyOf);
    case Withdraw(amount, key) => WithdrawEffect(s, step.env, amount, key, keyOf);
    case RequestWithdraw(_, _) => RequestStepKeepsInv(c, s, step, keyOf);
    case CancelWithdrawRequest(_) => RequestStepKeepsInv(c, s, step, keyOf);
    case ProcessEpoch => EpochStepKeepsInv(c, s, step, keyOf);
    case PostSignedBatch(_, _, _, _) => EpochStepKeepsInv(c, s, step, keyOf);
    case TokenTransfer(_, _) => TokenStepKeepsInv(c, s, step, keyOf);
    case TokenRegister(_) => TokenStepKeepsInv(c, s, step, keyOf);
    case TokenUnregister(_) => TokenStepKeepsInv(c, s, step, keyOf);
    case PostDataRequest(_) =>
    case UpdateConfig(_, _) =>
  }

  lemma NewIsConserved(dao: AccountId, supply: U128, size: U64, seed: nat, keyOf: KeyOf)
    ensures Inv(New(dao, supply, size, seed), keyOf)
  {
    MapSumUpdate(map[], dao, supply);
    assert map[][dao := supply as nat] == map[dao := supply as nat];
    assert Balances(map[]) == map[];
  }

  /** In every state that the contract can reach, tokens are conserved and the registry
      is well formed. */
  lemma {:induction false} RunKeepsInv(c: Crypto, h: History, i: nat, keyOf: KeyOf)
    requires IsRun(c, h) && i <= |h.steps|
    requires Inv(h.states[0], keyOf) && OneKeyPerAccount(h.steps, keyOf)
    ensures Inv(h.states[i], keyOf)
  {
    if i > 0 {
      RunKeepsInv(c, h, i - 1, keyOf);
      LinkKeepsInv(c, h, i - 1, keyOf);
    }
  }

  lemma LinkKeepsInv(c: Crypto, h: History, i: nat, keyOf: KeyOf)
    requires IsRun(c, h) && i < |h.steps|
    requires Inv(h.states[i], keyOf) && OneKeyPerAccount(h.steps, keyOf)
    ensures Inv(h.states[i + 1], keyOf)
  {
    assert Link(c, h, i);
    if h.accepted[i] { StepKeepsInv(c, h.states[i], h.steps[i], keyOf); }
  }
}
