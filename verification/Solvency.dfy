/** Node balances against recorded deposits.

    `deposit` overwrites the depositor's entry for the node, so an earlier entry is
    forgotten while its tokens stay in the node.  Over every run a node's balance is
    exactly its recorded deposits plus the entries that were overwritten. */
module Solvency {
  import opened Bytes
  import opened Collections
  import opened Committee
  import opened Mainchain
  import opened Staking
  import opened Conservation

  ghost function Into(deposits: map<(AccountId, Ed25519Key), nat>, k: Ed25519Key): map<(AccountId, Ed25519Key), nat> {
    map p | p in deposits && p.1 == k :: deposits[p]
  }

  /** What is recorded as deposited into a node, over all depositors. */
  ghost function Recorded(r: Registry, k: Ed25519Key): nat {
    MapSum(Into(r.deposits, k))
  }

  ghost function BalanceOf(node: Option<Node>): nat {
    if node.Some? then node.value.balance else 0
  }

  ghost function BalanceAt(r: Registry, k: Ed25519Key): nat {
    BalanceOf(NodeByEd25519(r, k))
  }

  lemma RecordedUpdate(deposits: map<(AccountId, Ed25519Key), nat>, p: (AccountId, Ed25519Key), v: nat, k: Ed25519Key)
    ensures MapSum(Into(deposits[p := v], k)) + (if p.1 == k && p in deposits then deposits[p] else 0)
         == MapSum(Into(deposits, k)) + (if p.1 == k then v else 0)
  {
    if p.1 == k {
      MapSumUpdate(Into(deposits, k), p, v);
      assert Into(deposits[p := v], k) == Into(deposits, k)[p := v];
    } else {
      assert Into(deposits[p := v], k) == Into(deposits, k);
    }
  }

  lemma EntryWithinRecorded(r: Registry, p: (AccountId, Ed25519Key))
    requires p in r.deposits
    ensures r.deposits[p] <= Recorded(r, p.1)
  {
    MapSumEntry(Into(r.deposits, p.1), p);
  }

  /** The entry that a deposit forgets when it is accepted. */
  ghost function Overwritten(s: State, step: Step, k: Ed25519Key): nat {
    if step.call.Deposit? && step.call.key == k && (step.env.signer, k) in s.registry.deposits
    then s.registry.deposits[(step.env.signer, k)] else 0
  }

  ghost function Lost(h: History, i: nat, k: Ed25519Key): nat
    requires i < |h.steps| == |h.accepted| && |h.states| == |h.steps| + 1
  {
    if h.accepted[i] then Overwritten(h.states[i], h.steps[i], k) else 0
  }

  /** All that repeat deposits have overwritten in the first `i` steps. */
  ghost function Stranded(h: History, i: nat, k: Ed25519Key): nat
    requires i <= |h.steps| == |h.accepted| && |h.states| == |h.steps| + 1
  {
    if i == 0 then 0 else Stranded(h, i - 1, k) + Lost(h, i - 1, k)
  }

  /** A call moves balance and record together, up to what it overwrites. */
  ghost predicate Together(r: Registry, r': Registry, k: Ed25519Key, lost: nat) {
    BalanceAt(r', k) + Recorded(r, k) == BalanceAt(r, k) + Recorded(r', k) + lost
  }

  lemma OtherKeysElsewhere(r: Registry, key: Ed25519Key, k: Ed25519Key)
    requires WellFormed(r) && NodeByEd25519(r, key).Some? && k in r.byEd25519 && k != key
    ensures r.byEd25519[k] != r.byEd25519[key]
  {
  }

  lemma ChangedBalance(r: Registry, r': Registry, key: Ed25519Key, node': Node, k: Ed25519Key)
    requires WellFormed(r) && NodeByEd25519(r, key).Some? && SameIndexes(r, r')
    requires NodeChanged(r, r', r.byEd25519[key], node')
    ensures BalanceAt(r', k) == if k == key then node'.balance else BalanceAt(r, k)
  {
    if k in r.byEd25519 && k != key { OtherKeysElsewhere(r, key, k); }
  }

  /** One node's balance and one entry of its deposits change; `lost` is the difference. */
  lemma EntryTogether(r: Registry, r': Registry, key: Ed25519Key, node': Node, a: AccountId, v: nat, lost: nat, k: Ed25519Key)
    requires WellFormed(r) && NodeByEd25519(r, key).Some? && SameIndexes(r, r')
    requires NodeChanged(r, r', r.byEd25519[key], node') && r'.deposits == r.deposits[(a, key) := v]
    requires node'.balance + (if (a, key) in r.deposits then r.deposits[(a, key)] else 0)
          == NodeByEd25519(r, key).value.balance + v + lost
    ensures Together(r, r', k, if k == key then lost else 0)
  {
    ChangedBalance(r, r', key, node', k);
    RecordedUpdate(r.deposits, (a, key), v, k);
  }

  lemma MovedTogether(s: State, s': State, epoch: nat, key: Ed25519Key, node': Node, a: AccountId, v: nat, lost: nat, keyOf: KeyOf, k: Ed25519Key)
    requires Inv(s, keyOf) && NodeByEd25519(s.registry, key).Some?
    requires Moved(s, s', epoch, s.registry.byEd25519[key], NodeByEd25519(s.registry, key).value, node')
    requires s'.registry.deposits == s.registry.deposits[(a, key) := v]
    requires node'.balance + (if (a, key) in s.registry.deposits then s.registry.deposits[(a, key)] else 0)
          == NodeByEd25519(s.registry, key).value.balance + v + lost
    ensures Together(s.registry, s'.registry, k, if k == key then lost else 0)
  {
    StakeMoved(s, s', epoch, s.registry.byEd25519[key], NodeByEd25519(s.registry, key).value, node', keyOf);
    EntryTogether(s.registry, s'.registry, key, node', a, v, lost, k);
  }

  lemma DepositTogether(s: State, env: Env, amount: nat, key: Ed25519Key, keyOf: KeyOf, k: Ed25519Key)
    requires Inv(s, keyOf) && DepositInto(s, env, amount, key).Some?
    ensures var entry := (env.signer, key);
            Together(s.registry, DepositInto(s, env, amount, key).value.registry, k,
                     if k == key && entry in s.registry.deposits then s.registry.deposits[entry] else 0)
  {
    var entry, s' := (env.signer, key), DepositInto(s, env, amount, key).value;
    DepositMoves(s, env, amount, key);
    MovedTogether(s, s', env.Epoch(), key, AfterDeposit(s, amount, key), env.signer, amount,
                  if entry in s.registry.deposits then s.registry.deposits[entry] else 0, keyOf, k);
  }

  lemma WithdrawTogether(s: State, env: Env, amount: nat, key: Ed25519Key, keyOf: KeyOf, k: Ed25519Key)
    requires Inv(s, keyOf) && WithdrawFrom(s, env, amount, key).Some?
    ensures Together(s.registry, WithdrawFrom(s, env, amount, key).value.registry, k, 0)
  {
    var entry, s' := (env.signer, key), WithdrawFrom(s, env, amount, key).value;
    WithdrawMoves(s, env, amount, key);
    MovedTogether(s, s', env.Epoch(), key, AfterWithdraw(s, amount, key), env.signer,
                  s.registry.deposits[entry] - amount, 0, keyOf, k);
  }

  lemma RegisterTogether(c: Crypto, s: State, step: Step, keyOf: KeyOf, k: Ed25519Key)
    requires Inv(s, keyOf) && SignsWithOwnKey(step, keyOf) && Apply(c, s, step).Some? && step.call.RegisterNode?
    ensures Together(s.registry, Apply(c, s, step).value.registry, k, Overwritten(s, step, k))
  {
    OwnKeyIsFresh(s.registry, keyOf, step.env.signer);
    RegisterEffect(c, s, step.env, step.call.multiAddr, step.call.bn254, step.call.signature);
  }

  lemma SameBalancesTogether(s: State, step: Step, r': Registry, k: Ed25519Key)
    requires SameIndexes(s.registry, r') && !step.call.Deposit? && r'.deposits == s.registry.deposits
    requires forall b :: BalanceOf(NodeOf(r', b)) == BalanceOf(NodeOf(s.registry, b))
    ensures Together(s.registry, r', k, Overwritten(s, step, k))
  {
  }

  /** Neither call touches a balance; unregistering removes a node whose balance is zero. */
  lemma UnregisterTogether(c: Crypto, s: State, step: Step, k: Ed25519Key)
    requires step.call.UnregisterNode? && Apply(c, s, step).Some?
    ensures Together(s.registry, Apply(c, s, step).value.registry, k, Overwritten(s, step, k))
  {
    SameBalancesTogether(s, step, Unregister(s, step.env, step.call.key).value.registry, k);
  }

  lemma UpdateTogether(c: Crypto, s: State, step: Step, k: Ed25519Key)
    requires step.call.UpdateNode? && Apply(c, s, step).Some?
    ensures Together(s.registry, Apply(c, s, step).value.registry, k, Overwritten(s, step, k))
  {
    SameBalancesTogether(s, step, UpdateAddress(s, step.env, step.call.newMultiAddr).value.registry, k);
  }

  lemma EpochTogether(c: Crypto, s: State, step: Step, keyOf: KeyOf, k: Ed25519Key)
    requires Inv(s, keyOf) && Apply(c, s, step).Some?
    requires IsEpochStep(step.call)
    ensures Together(s.registry, Apply(c, s, step).value.registry, k, Overwritten(s, step, k))
  {
    EpochStepIs(c, s, step);
    NextEpochKeepsNodes(c, s, step.env);
    SameBalancesTogether(s, step, NextEpoch(c, s, step.env).value.registry, k);
  }

  lemma QuietTogether(c: Crypto, s: State, step: Step, k: Ed25519Key)
    requires Apply(c, s, step).Some?
    requires step.call.RequestWithdraw? || step.call.CancelWithdrawRequest? || step.call.PostDataRequest? || step.call.UpdateConfig?
          || step.call.TokenTransfer? || step.call.TokenRegister? || step.call.TokenUnregister?
    ensures Together(s.registry, Apply(c, s, step).value.registry, k, Overwritten(s, step, k))
  {
    SameBalancesTogether(s, step, Apply(c, s, step).value.registry, k);
  }

  lemma StepTogether(c: Crypto, s: State, step: Step, keyOf: KeyOf, k: Ed25519Key)
    requires Inv(s, keyOf) && SignsWithOwnKey(step, keyOf) && Apply(c, s, step).Some?
    ensures Together(s.registry, Apply(c, s, step).value.registry, k, Overwritten(s, step, k))
  {
    match step.call
    case RegisterNode(_, _, _) => RegisterTogether(c, s, step, keyOf, k);
    case UnregisterNode(_) => UnregisterTogether(c, s, step, k);
    case UpdateNode(_) => UpdateTogether(c, s, step, k);
    case Deposit(amount, key) => DepositTogether(s, step.env, amount, key, keyOf, k);
    case Withdraw(amount, key) => WithdrawTogether(s, step.env, amount, key, keyOf, k);
    case ProcessEpoch => EpochTogether(c, s, step, keyOf, k);
    case PostSignedBatch(_, _, _, _) => EpochTogether(c, s, step, keyOf, k);
    case _ => QuietTogether(c, s, step, k);
  }

  lemma LinkTogether(c: Crypto, h: History, i: nat, keyOf: KeyOf, k: Ed25519Key)
    requires IsRun(c, h) && i < |h.steps|
    requires Inv(h.states[i], keyOf) && OneKeyPerAccount(h.steps, keyOf)
    ensures Together(h.states[i].registry, h.states[i + 1].registry, k, Lost(h, i, k))
  {
    assert Link(c, h, i);
    if h.accepted[i] { StepTogether(c, h.states[i], h.steps[i], keyOf, k); }
  }

  lemma {:induction false} GapIsStranded(h: History, i: nat, k: Ed25519Key)
    requires i <= |h.steps| == |h.accepted| && |h.states| == |h.steps| + 1
    requires forall j :: 0 <= j < i ==> Together(h.states[j].registry, h.states[j + 1].registry, k, Lost(h, j, k))
    requires BalanceAt(h.states[0].registry, k) == Recorded(h.states[0].registry, k)
    ensures BalanceAt(h.states[i].registry, k) == Recorded(h.states[i].registry, k) + Stranded(h, i, k)
  {
    if i > 0 {
      GapIsStranded(h, i - 1, k);
      assert Together(h.states[i - 1].registry, h.states[i].registry, k, Lost(h, i - 1, k));
    }
  }

  /** In every reachable state the balance of a node is what is recorded as deposited
      into it plus what repeat deposits overwrote. */
  lemma BalanceIsRecordedPlusStranded(c: Crypto, h: History, i: nat, keyOf: KeyOf, k: Ed25519Key)
    requires IsRun(c, h) && i <= |h.steps|
    requires Inv(h.states[0], keyOf) && OneKeyPerAccount(h.steps, keyOf)
    requires BalanceAt(h.states[0].registry, k) == Recorded(h.states[0].registry, k)
    ensures BalanceAt(h.states[i].registry, k) == Recorded(h.states[i].registry, k) + Stranded(h, i, k)
  {
    forall j | 0 <= j < i ensures Together(h.states[j].registry, h.states[j + 1].registry, k, Lost(h, j, k)) {
      RunKeepsInv(c, h, j, keyOf);
      LinkTogether(c, h, j, keyOf, k);
    }
    GapIsStranded(h, i, k);
  }

  lemma NewIsBacked(dao: AccountId, supply: U128, size: U64, seed: nat, k: Ed25519Key)
    ensures BalanceAt(New(dao, supply, size, seed).registry, k) == Recorded(New(dao, supply, size, seed).registry, k)
  {
    assert Into(map[], k) == map[];
  }

  /** A run of a new contract. */
  ghost predicate StartsNew(h: History) {
    h.states != [] && exists dao: AccountId, supply: U128, size: U64, seed: nat :: h.states[0] == New(dao, supply, size, seed)
  }

  /** The state after some run of a new contract. */
  ghost predicate Reachable(c: Crypto, s: State, keyOf: KeyOf) {
    exists h: History :: IsRun(c, h) && StartsNew(h) && OneKeyPerAccount(h.steps, keyOf) && h.states[|h.steps|] == s
  }

  /** Solvency: the deposits into a node never exceed its balance, so a withdrawal within
      the recorded deposit never fails the node's balance check. */
  lemma ReachableIsSolvent(c: Crypto, s: State, keyOf: KeyOf)
    requires Reachable(c, s, keyOf)
    ensures Inv(s, keyOf)
    ensures forall k :: Recorded(s.registry, k) <= BalanceAt(s.registry, k)
    ensures forall p :: p in s.registry.deposits ==> s.registry.deposits[p] <= BalanceAt(s.registry, p.1)
  {
    var h: History :| IsRun(c, h) && StartsNew(h) && OneKeyPerAccount(h.steps, keyOf) && h.states[|h.steps|] == s;
    NewIsSound(h, keyOf);
    RunKeepsInv(c, h, |h.steps|, keyOf);
    forall k ensures Recorded(s.registry, k) <= BalanceAt(s.registry, k) {
      BalanceIsRecordedPlusStranded(c, h, |h.steps|, keyOf, k);
    }
    forall p | p in s.registry.deposits ensures s.registry.deposits[p] <= BalanceAt(s.registry, p.1) {
      EntryWithinRecorded(s.registry, p);
    }
  }

  lemma NewIsSound(h: History, keyOf: KeyOf)
    requires StartsNew(h)
    ensures Inv(h.states[0], keyOf)
    ensures forall k :: BalanceAt(h.states[0].registry, k) == Recorded(h.states[0].registry, k)
  {
    var dao: AccountId, supply: U128, size: U64, seed: nat :| h.states[0] == New(dao, supply, size, seed);
    NewIsConserved(dao, supply, size, seed, keyOf);
    forall k ensures BalanceAt(h.states[0].registry, k) == Recorded(h.states[0].registry, k) {
      NewIsBacked(dao, supply, size, seed, k);
    }
  }

  /** Whether filing a node under a balance would queue it past the last epoch number. */
  predicate QueueOverflows(s: State, epoch: nat, key: Ed25519Key, balance: int) {
    && key in s.registry.byEd25519 && s.registry.byEd25519[key] !in s.registry.active.vals
    && balance >= s.config.minimumStake && epoch + s.config.electionDelay >= U64_LIMIT
  }

  /** In reachable states no sum in `deposit` overflows: a deposit goes through exactly
      when the tokens and the node are there and the election epoch is representable. */
  lemma DepositAcceptedExactly(c: Crypto, s: State, env: Env, amount: U128, key: Ed25519Key, keyOf: KeyOf)
    requires Reachable(c, s, keyOf)
    ensures DepositInto(s, env, amount, key).Some? <==>
              && env.signer in s.token.accounts && amount <= s.token.accounts[env.signer]
              && NodeByEd25519(s.registry, key).Some?
              && !QueueOverflows(s, env.Epoch(), key, BalanceAt(s.registry, key) + amount)
  {
    ReachableIsSolvent(c, s, keyOf);
    if env.signer in s.token.accounts { MapSumEntry(s.token.accounts, env.signer); }
    if NodeByEd25519(s.registry, key).Some? { NodeWithinStake(s.registry, s.registry.byEd25519[key]); }
  }

  lemma FiledExactly(s: State, epoch: nat, key: Ed25519Key, node: Node)
    requires key in s.registry.byEd25519
    ensures FileNode(s.registry, s.config, epoch, s.registry.byEd25519[key], node).Some? <==> !QueueOverflows(s, epoch, key, node.balance)
  {
  }

  /** The checks of a withdrawal in an arbitrary state. */
  lemma WithdrawChecks(s: State, env: Env, amount: U128, key: Ed25519Key)
    ensures var entry := (env.signer, key);
            WithdrawFrom(s, env, amount, key).Some? <==>
              && 0 < amount && NodeByEd25519(s.registry, key).Some? && amount <= BalanceAt(s.registry, key)
              && entry in s.registry.deposits && amount <= s.registry.deposits[entry]
              && entry in s.registry.requests && s.registry.requests[entry].epoch <= env.Epoch()
              && env.signer in s.token.accounts && s.token.accounts[env.signer] + amount < U128_LIMIT
              && amount <= s.registry.lastTotalBalance
              && !QueueOverflows(s, env.Epoch(), key, BalanceAt(s.registry, key) - amount)
  {
    if NodeByEd25519(s.registry, key).Some? && amount <= BalanceAt(s.registry, key) {
      FiledExactly(s, env.Epoch(), key, AfterWithdraw(s, amount, key));
    }
  }

  /** A withdrawal goes through exactly when it is positive, within the recorded deposit,
      requested and due, and the account can receive tokens: neither the node's balance,
      nor the recorded total, nor 128-bit overflow ever stands in the way. */
  lemma WithdrawAcceptedExactly(c: Crypto, s: State, env: Env, amount: U128, key: Ed25519Key, keyOf: KeyOf)
    requires Reachable(c, s, keyOf)
    ensures var entry := (env.signer, key);
            WithdrawFrom(s, env, amount, key).Some? <==>
              && 0 < amount && entry in s.registry.deposits && amount <= s.registry.deposits[entry]
              && entry in s.registry.requests && s.registry.requests[entry].epoch <= env.Epoch()
              && env.signer in s.token.accounts
              && !QueueOverflows(s, env.Epoch(), key, BalanceAt(s.registry, key) - amount)
  {
    var entry := (env.signer, key);
    ReachableIsSolvent(c, s, keyOf);
    WithdrawChecks(s, env, amount, key);
    if entry in s.registry.deposits && 0 < amount <= s.registry.deposits[entry] && env.signer in s.token.accounts {
      CoveredWithdrawal(s, env.signer, amount, key, keyOf);
    }
  }

  /** A positive amount within a node's balance is within the total, and the account that
      receives it stays within 128 bits. */
  lemma CoveredWithdrawal(s: State, a: AccountId, amount: nat, key: Ed25519Key, keyOf: KeyOf)
    requires Inv(s, keyOf) && 0 < amount <= BalanceAt(s.registry, key) && a in s.token.accounts
    ensures NodeByEd25519(s.registry, key).Some? && amount <= s.registry.lastTotalBalance
    ensures s.token.accounts[a] + amount < U128_LIMIT
  {
    NodeWithinStake(s.registry, s.registry.byEd25519[key]);
    MapSumEntry(s.token.accounts, a);
  }
}
