/** What each call of the contract does, account by account, and when it is accepted. */
module CallEffects {
  import opened Bytes
  import opened Collections
  import opened Bn254
  import opened Committee
  import opened Mainchain
  import opened Staking
  import opened Conservation
  import opened Solvency
  import opened Lifecycle

  // ----- the token ledger

  /** By how much a call changes the liquid balance of `b`. */
  ghost function Change(step: Step, b: AccountId): int {
    match step.call
    case Deposit(amount, _) => if b == step.env.signer then 0 - amount else 0
    case Withdraw(amount, _) => if b == step.env.signer then amount else 0
    case TokenTransfer(receiver, amount) => if b == step.env.signer then 0 - amount else if b == receiver then amount else 0
    case _ => 0
  }

  /** Account `b` before and after an accepted call. */
  ghost predicate LedgerStep(t: Token, step: Step, t': Token, b: AccountId) {
    && (b in t'.accounts <==> (b in t.accounts || step.call == TokenRegister(b)) && !(step.call.TokenUnregister? && b == step.env.signer))
    && (b in t.accounts && b in t'.accounts ==> t'.accounts[b] == t.accounts[b] + Change(step, b))
    && (b !in t.accounts && b in t'.accounts ==> t'.accounts[b] == 0)
  }

  lemma TokenCallsLedger(c: Crypto, s: State, step: Step, b: AccountId)
    requires step.call.TokenTransfer? || step.call.TokenRegister? || step.call.TokenUnregister?
    requires Apply(c, s, step).Some?
    ensures LedgerStep(s.token, step, Apply(c, s, step).value.token, b)
  {
  }

  lemma DepositLedger(s: State, env: Env, amount: nat, key: Ed25519Key)
    requires DepositInto(s, env, amount, key).Some?
    ensures env.signer in s.token.accounts && amount <= s.token.accounts[env.signer]
    ensures DepositInto(s, env, amount, key).value.token
         == s.token.(accounts := s.token.accounts[env.signer := s.token.accounts[env.signer] - amount])
  {
  }

  lemma WithdrawLedger(s: State, env: Env, amount: nat, key: Ed25519Key)
    requires WithdrawFrom(s, env, amount, key).Some?
    ensures env.signer in s.token.accounts
    ensures WithdrawFrom(s, env, amount, key).value.token
         == s.token.(accounts := s.token.accounts[env.signer := s.token.accounts[env.signer] + amount])
  {
  }

  lemma OtherCallsLedger(c: Crypto, s: State, step: Step)
    requires !IsBalanceUpdate(step.call) && !IsEpochStep(step.call) && Apply(c, s, step).Some?
    requires !step.call.TokenTransfer? && !step.call.TokenRegister? && !step.call.TokenUnregister?
    ensures Apply(c, s, step).value.token == s.token
  {
  }

  /** Every call changes the liquid balance of every account by exactly what it moves. */
  lemma LedgerExactly(c: Crypto, s: State, step: Step, b: AccountId)
    requires Apply(c, s, step).Some?
    ensures LedgerStep(s.token, step, Apply(c, s, step).value.token, b)
  {
    match step.call
    case Deposit(amount, key) => DepositLedger(s, step.env, amount, key);
    case Withdraw(amount, key) => WithdrawLedger(s, step.env, amount, key);
    case TokenTransfer(_, _) => TokenCallsLedger(c, s, step, b);
    case TokenRegister(_) => TokenCallsLedger(c, s, step, b);
    case TokenUnregister(_) => TokenCallsLedger(c, s, step, b);
    case ProcessEpoch => EpochStepIs(c, s, step);
    case PostSignedBatch(_, _, _, _) => EpochStepIs(c, s, step);
    case _ => OtherCallsLedger(c, s, step);
  }

  // ----- active and inactive nodes

  lemma FileActivity(r: Registry, config: Config, epoch: nat, a: AccountId, node: Node)
    requires WellFormed(r) && NodeOf(r, a).Some? && FileNode(r, config, epoch, a, node).Some?
    ensures var r' := FileNode(r, config, epoch, a, node).value;
            && (a in r'.active.vals <==> a in r.active.vals && node.balance >= config.minimumStake)
            && (a in r'.inactive <==> a !in r'.active.vals)
            && forall b :: b != a ==> (b in r'.active.vals <==> b in r.active.vals) && (b in r'.inactive <==> b in r.inactive)
  {
  }

  /** A deposit or withdrawal keeps its node active exactly when it was and its balance ends
      at the minimum stake or above, leaves it on exactly one side, and moves no other. */
  lemma ActivityExactly(c: Crypto, s: State, step: Step)
    requires WellFormed(s.registry) && IsBalanceUpdate(step.call) && Apply(c, s, step).Some?
    ensures NodeByEd25519(s.registry, step.call.key).Some?
    ensures var r, r', a := s.registry, Apply(c, s, step).value.registry, s.registry.byEd25519[step.call.key];
            && (a in r'.active.vals <==> a in r.active.vals && Adjusted(NodeOf(r, a).value.balance, step.call) >= s.config.minimumStake)
            && (a in r'.inactive <==> a !in r'.active.vals)
            && forall b :: b != a ==> (b in r'.active.vals <==> b in r.active.vals) && (b in r'.inactive <==> b in r.inactive)
  {
    var node, node' := UpdateMoves(c, s, step);
    FileActivity(s.registry, s.config, step.env.Epoch(), s.registry.byEd25519[step.call.key], node');
  }

  lemma {:induction false} MigrateKeepsActive(r: Registry, due: seq<AccountId>, a: AccountId)
    requires Migrate(r, due).Some? && a in r.active.vals
    ensures a in Migrate(r, due).value.active.vals
    decreases |due|
  {
    if due != [] { MigrateKeepsActive(Activate(r, due[0]), due[1..], a); }
  }

  lemma EpochKeepsActive(c: Crypto, s: State, env: Env, a: AccountId)
    requires NextEpoch(c, s, env).Some? && a in s.registry.active.vals
    ensures a in NextEpoch(c, s, env).value.registry.active.vals
  {
    var due := Due(s.registry.pending.keys, s.registry.pending.vals, env.Epoch());
    if Migrate(s.registry, due).Some? { MigrateKeepsActive(s.registry, due, a); }
  }

  lemma OtherCallsKeepActive(c: Crypto, s: State, step: Step, a: AccountId)
    requires !IsBalanceUpdate(step.call) && !IsEpochStep(step.call) && Apply(c, s, step).Some? && a in s.registry.active.vals
    ensures a in Apply(c, s, step).value.registry.active.vals
  {
  }

  /** The call takes the balance of `a`'s own node below the minimum stake. */
  ghost predicate TakesBelow(s: State, step: Step, a: AccountId) {
    && IsBalanceUpdate(step.call) && step.call.key in s.registry.byEd25519 && s.registry.byEd25519[step.call.key] == a
    && NodeOf(s.registry, a).Some? && Adjusted(NodeOf(s.registry, a).value.balance, step.call) < s.config.minimumStake
  }

  lemma StepLeavesActive(c: Crypto, s: State, step: Step, a: AccountId)
    requires WellFormed(s.registry) && Apply(c, s, step).Some? && a in s.registry.active.vals
    ensures a !in Apply(c, s, step).value.registry.active.vals <==> TakesBelow(s, step, a)
  {
    if IsBalanceUpdate(step.call) {
      ActivityExactly(c, s, step);
    } else if IsEpochStep(step.call) {
      EpochStepIs(c, s, step);
      EpochKeepsActive(c, s, step.env, a);
    } else {
      OtherCallsKeepActive(c, s, step, a);
    }
  }

  /** Over every run an active node becomes inactive exactly by an accepted balance update
      of its own that ends below the minimum stake. */
  lemma LeavesActiveExactly(c: Crypto, h: History, i: nat, a: AccountId, keyOf: KeyOf)
    requires IsRun(c, h) && i < |h.steps| && Inv(h.states[0], keyOf) && OneKeyPerAccount(h.steps, keyOf)
    requires a in h.states[i].registry.active.vals
    ensures a !in h.states[i + 1].registry.active.vals <==> h.accepted[i] && TakesBelow(h.states[i], h.steps[i], a)
  {
    RunKeepsInv(c, h, i, keyOf);
    assert Link(c, h, i);
    if h.accepted[i] { StepLeavesActive(c, h.states[i], h.steps[i], a); }
  }

  // ----- acceptance of the remaining calls

  lemma RequestChecks(c: Crypto, s: State, env: Env, amount: U128, key: Ed25519Key)
    ensures Apply(c, s, Step(env, RequestWithdraw(amount, key))) == RequestWithdrawal(s, env, amount, key)
  {
  }

  /** In reachable states a withdrawal can be requested exactly when it is positive, within
      the recorded deposit, none is pending, and its epoch is representable. */
  lemma RequestAcceptedExactly(c: Crypto, s: State, env: Env, amount: U128, key: Ed25519Key, keyOf: KeyOf)
    requires Reachable(c, s, keyOf)
    ensures var entry := (env.signer, key);
            Apply(c, s, Step(env, RequestWithdraw(amount, key))).Some? <==>
              && 0 < amount && entry in s.registry.deposits && amount <= s.registry.deposits[entry]
              && entry !in s.registry.requests && env.Epoch() + s.config.withdrawDelay < U64_LIMIT
  {
    ReachableIsSolvent(c, s, keyOf);
    RequestChecks(c, s, env, amount, key);
  }

  /** In reachable states a transfer between two registered accounts goes through exactly
      when it is positive, between different accounts, and covered. */
  lemma TransferAcceptedExactly(c: Crypto, s: State, env: Env, receiver: AccountId, amount: U128, keyOf: KeyOf)
    requires Reachable(c, s, keyOf)
    ensures Apply(c, s, Step(env, TokenTransfer(receiver, amount))).Some? <==>
              && 0 < amount && env.signer != receiver && receiver in s.token.accounts
              && env.signer in s.token.accounts && amount <= s.token.accounts[env.signer]
  {
    ReachableIsSolvent(c, s, keyOf);
    if env.signer in s.token.accounts && receiver in s.token.accounts && env.signer != receiver {
      TwoEntriesWithin(s.token.accounts, env.signer, receiver);
    }
    TransferIs(c, s, env, receiver, amount);
  }

  /** An account is closed when it is empty or its owner insists; one that was never opened
      counts as closed.  Opening one always works. */
  lemma AccountCallsAcceptedExactly(c: Crypto, s: State, env: Env, a: AccountId, force: bool, keyOf: KeyOf)
    requires Reachable(c, s, keyOf)
    ensures Apply(c, s, Step(env, TokenRegister(a))).Some?
    ensures Apply(c, s, Step(env, TokenUnregister(force))).Some? <==>
              env.signer !in s.token.accounts || s.token.accounts[env.signer] == 0 || force
  {
    ReachableIsSolvent(c, s, keyOf);
    if env.signer in s.token.accounts { MapSumEntry(s.token.accounts, env.signer); }
    UnregisterIs(c, s, env, force);
  }

  lemma UnregisterIs(c: Crypto, s: State, env: Env, force: bool)
    ensures Apply(c, s, Step(env, TokenUnregister(force))).Some? <==> UnregisterAccount(s.token, env.signer, force).Some?
  {
  }

  lemma TransferIs(c: Crypto, s: State, env: Env, receiver: AccountId, amount: U128)
    ensures Apply(c, s, Step(env, TokenTransfer(receiver, amount))).Some? <==> Transfer(s.token, env.signer, receiver, amount).Some?
  {
  }

  lemma TwoEntriesWithin(m: map<AccountId, nat>, a: AccountId, b: AccountId)
    requires a in m && b in m && a != b
    ensures m[a] + m[b] <= MapSum(m)
  {
    MapSumRemove(m, a);
    MapSumEntry(m - {a}, b);
  }

  /** A node is registered exactly when both keys are new and the bn254 key has signed the
      name of the account, and it is then filed, empty, under both keys. */
  lemma RegisterExactly(c: Crypto, s: State, env: Env, addr: string, key: Element, sig: Element)
    ensures var r, s' := s.registry, Apply(c, s, Step(env, RegisterNode(addr, key, sig)));
            && (s'.Some? <==> key !in r.byBn254 && env.signerKey !in r.byEd25519 && Verify(c.order, c.point(env.signer.ascii), sig, key))
            && (s'.Some? ==>
                  var r' := s'.value.registry;
                  && r'.byEd25519.Keys == r.byEd25519.Keys + {env.signerKey} && r'.byBn254.Keys == r.byBn254.Keys + {key}
                  && r'.byEd25519[env.signerKey] == r'.byBn254[key] == env.signer
                  && env.signer in r'.inactive && r'.inactive[env.signer] == Node(addr, 0, key, env.signerKey)
                  && r'.pending == r.pending && r'.active == r.active)
  {
  }

  /** A node is unregistered exactly by its own key, while it holds nothing. */
  lemma UnregisterAcceptedExactly(c: Crypto, s: State, env: Env, key: Ed25519Key)
    ensures Apply(c, s, Step(env, UnregisterNode(key))).Some? <==>
              env.signerKey == key && NodeByEd25519(s.registry, key).Some? && BalanceAt(s.registry, key) == 0
  {
  }

  lemma UpdateAcceptedExactly(c: Crypto, s: State, env: Env, addr: string)
    ensures Apply(c, s, Step(env, UpdateNode(addr))).Some? <==> NodeOf(s.registry, env.signer).Some?
  {
  }

  lemma CancelAcceptedExactly(c: Crypto, s: State, env: Env, key: Ed25519Key)
    ensures Apply(c, s, Step(env, CancelWithdrawRequest(key))).Some? <==> key in s.registry.byEd25519
  {
  }

  /** Only the DAO sets the minimum stake, and the election delay up to 64 bits. */
  lemma ConfigExactly(c: Crypto, s: State, env: Env, field: UpdateConfig, value: U128)
    ensures var s' := Apply(c, s, Step(env, Call.UpdateConfig(field, value)));
            && (s'.Some? <==> env.signer == s.dao)
            && (s'.Some? ==>
                  && s'.value.config.minimumStake == (if field.MinimumStake? then value else s.config.minimumStake)
                  && s'.value.config.electionDelay == (if field.EpochDelayForElection? then value % U64_LIMIT else s.config.electionDelay)
                  && s'.value == s.(config := s'.value.config))
  {
  }

  /** The state in which a new contract starts. */
  lemma NewContract(dao: AccountId, supply: U128, size: U64, seed: nat)
    ensures var s := New(dao, supply, size, seed);
            && s.dao == dao && s.token.accounts == map[dao := supply] && s.token.totalSupply == supply
            && s.config.minimumStake == 100_000_000_000_000_000_000_000_000 && s.config.electionDelay == 2
            && s.config.withdrawDelay == 2 && s.config.committeeSize == size
            && s.schedule.bootstrapping && s.schedule.lastProcessedEpoch == 0 && s.schedule.lastRandom == seed
            && s.registry.lastTotalBalance == 0 && s.registry.deposits == map[] && s.registry.requests == map[]
            && (forall a :: NodeOf(s.registry, a) == None) && s.chain.numBatches == 0 && s.chain.accumulator == []
  {
  }
}
