/** contracts/src: the contract object.  Its fields are the contract's storage, grouped
    as in `Mainchain`; every method updates them as the source does and is proved to take
    the abstract state `View()` where the state machine of `Mainchain` says.  The result
    of a method tells whether the call was accepted; a refused call leaves every field as
    it was, whatever it had already written. */
module Contract {
  import opened Bytes
  import opened Collections
  import opened Bn254
  import opened Committee
  import opened Mainchain
  import Merkle

  /** The outcome of a call whose abstract effect is `r`. */
  ghost predicate Outcome(before: State, r: Option<State>, ok: bool, after: State) {
    ok == r.Some? && after == if r.Some? then r.value else before
  }

  lemma SignerKeysAre(active: map<AccountId, Node>, committee: seq<AccountId>, signers: seq<AccountId>, keys: seq<Element>)
    requires |keys| == |signers|
    requires forall k :: 0 <= k < |signers| ==> signers[k] in committee && signers[k] in active && keys[k] == active[signers[k]].bn254
    ensures SignerKeys(active, committee, signers) == Some(keys)
  {
    assert forall a :: a in signers ==> a in committee && a in active;
    var all := seq(|signers|, i requires 0 <= i < |signers| && signers[i] in active => active[signers[i]].bn254);
    assert keys == all;
  }

  class MainchainContract {
    const crypto: Crypto
    const dao: AccountId
    var config: Config
    var token: Token
    var registry: Registry
    var schedule: Schedule
    var chain: Chain

    ghost function View(): State
      reads this
    {
      State(dao, config, token, registry, schedule, chain)
    }

    constructor (crypto: Crypto, dao: AccountId, initialSupply: U128, committeeSize: U64, randomSeed: nat)
      ensures View() == New(dao, initialSupply, committeeSize, randomSeed) && this.crypto == crypto
    {
      this.crypto := crypto;
      this.dao := dao;
      config := Config(INIT_MINIMUM_STAKE, INIT_EPOCH_DELAY_FOR_ELECTION, committeeSize, INIT_EPOCH_DELAY_FOR_ELECTION);
      registry := Registry(UnorderedMap([], map[]), map[], UnorderedMap([], map[]), map[], map[], map[], map[], 0);
      schedule := Schedule(map[], true, 0, randomSeed);
      chain := Chain([], 0, map[], map[]);
      token := Token(map[dao := initialSupply], initialSupply);
    }

    // ----- contracts/src/fungible_token.rs

    method Mint(a: AccountId, amount: nat) returns (ok: bool)
      modifies this`token
      ensures var t := Mainchain.Mint(old(token), a, amount);
              ok == t.Some? && token == if t.Some? then t.value else old(token)
    {
      if a !in token.accounts || token.accounts[a] + amount >= U128_LIMIT { return false; }
      var newUserBalance := token.accounts[a] + amount;
      token := token.(accounts := token.accounts[a := newUserBalance]);
      return true;
    }

    method Burn(a: AccountId, amount: nat) returns (ok: bool)
      modifies this`token
      ensures var t := Mainchain.Burn(old(token), a, amount);
              ok == t.Some? && token == if t.Some? then t.value else old(token)
    {
      if a !in token.accounts || token.accounts[a] < amount { return false; }
      var newUserBalance := token.accounts[a] - amount;
      token := token.(accounts := token.accounts[a := newUserBalance]);
      return true;
    }

    // ----- contracts/src/node_registry.rs

    method GetNode(a: AccountId) returns (node: Option<Node>)
      ensures node == NodeOf(registry, a)
    {
      if a in registry.active.vals { return Some(registry.active.vals[a]); }
      if a in registry.inactive { return Some(registry.inactive[a]); }
      return None;
    }

    method GetNodeByEd25519(key: Ed25519Key) returns (node: Option<Node>)
      ensures node == NodeByEd25519(registry, key)
    {
      if key !in registry.byEd25519 { return None; }
      node := GetNode(registry.byEd25519[key]);
    }

    method HandleNodeBalanceUpdate(env: Env, a: AccountId, node: Node) returns (ok: bool)
      modifies this`registry
      ensures var r := FileNode(old(registry), config, env.Epoch(), a, node);
              ok == r.Some? && registry == if r.Some? then r.value else old(registry)
    {
      if node.balance >= config.minimumStake {
        if a in registry.active.vals {
          registry := registry.(active := Insert(registry.active, a, node));
        } else {
          var epochWhenEligible := env.Epoch() + config.electionDelay;
          if epochWhenEligible >= U64_LIMIT { return false; }
          registry := registry.(inactive := registry.inactive[a := node]);
          registry := registry.(pending := Insert(registry.pending, a, epochWhenEligible));
        }
      } else {
        registry := registry.(active := Remove(registry.active, a));
        registry := registry.(inactive := registry.inactive[a := node]);
      }
      return true;
    }

    method Deposit(env: Env, amount: U128, key: Ed25519Key) returns (ok: bool)
      modifies this`token, this`registry
      ensures Outcome(old(View()), DepositInto(old(View()), env, amount, key), ok, View())
    {
      var liquid := token;
      ok := Burn(env.signer, amount);
      if !ok { return; }
      var node := GetNodeByEd25519(key);
      if node.Some? && node.value.balance + amount < U128_LIMIT && registry.lastTotalBalance + amount < U128_LIMIT {
        ok := HandleNodeBalanceUpdate(env, registry.byEd25519[key], node.value.(balance := node.value.balance + amount));
        if ok {
          registry := registry.(deposits := registry.deposits[(env.signer, key) := amount],
                                lastTotalBalance := registry.lastTotalBalance + amount);
          return;
        }
      }
      token := liquid;
      return false;
    }

    /** The checks that `internal_withdraw` makes before it moves tokens. */
    method WithdrawAllowed(env: Env, amount: U128, key: Ed25519Key) returns (ok: bool)
      ensures var entry, node := (env.signer, key), NodeByEd25519(registry, key);
              ok <==> amount > 0 && node.Some? && node.value.balance >= amount
                      && entry in registry.deposits && registry.deposits[entry] >= amount
                      && entry in registry.requests && registry.requests[entry].epoch <= env.Epoch()
    {
      if amount == 0 { return false; }
      var node := GetNodeByEd25519(key);
      if node.None? || node.value.balance < amount { return false; }
      var entry := (env.signer, key);
      if entry !in registry.deposits || registry.deposits[entry] < amount { return false; }
      return entry in registry.requests && registry.requests[entry].epoch <= env.Epoch();
    }

    method Withdraw(env: Env, amount: U128, key: Ed25519Key) returns (ok: bool)
      modifies this`token, this`registry
      ensures Outcome(old(View()), WithdrawFrom(old(View()), env, amount, key), ok, View())
    {
      ok := WithdrawAllowed(env, amount, key);
      if !ok || registry.lastTotalBalance < amount { return false; }
      var liquid := token;
      ok := Mint(env.signer, amount);
      if !ok { return; }
      var node := GetNodeByEd25519(key);
      ok := HandleNodeBalanceUpdate(env, registry.byEd25519[key], node.value.(balance := node.value.balance - amount));
      if !ok {
        token := liquid;
        return;
      }
      var entry := (env.signer, key);
      registry := registry.(deposits := registry.deposits[entry := registry.deposits[entry] - amount],
                            requests := registry.requests - {entry},
                            lastTotalBalance := registry.lastTotalBalance - amount);
    }

    method RequestWithdraw(env: Env, amount: U128, key: Ed25519Key) returns (ok: bool)
      modifies this`registry
      ensures Outcome(old(View()), RequestWithdrawal(old(View()), env, amount, key), ok, View())
    {
      if amount == 0 { return false; }
      var node := GetNodeByEd25519(key);
      if node.None? || node.value.balance < amount { return false; }
      var entry := (env.signer, key);
      if entry !in registry.deposits || registry.deposits[entry] < amount || entry in registry.requests { return false; }
      var epoch := env.Epoch() + config.withdrawDelay;
      if epoch >= U64_LIMIT { return false; }
      registry := registry.(requests := registry.requests[entry := WithdrawRequest(amount, epoch)]);
      return true;
    }

    method CancelWithdrawRequest(env: Env, key: Ed25519Key) returns (ok: bool)
      modifies this`registry
      ensures Outcome(old(View()), CancelRequest(old(View()), env, key), ok, View())
    {
      if key !in registry.byEd25519 { return false; }
      registry := registry.(requests := registry.requests - {(env.signer, key)});
      return true;
    }

    method RegisterNode(env: Env, multiAddr: string, bn254: Element, signature: Element) returns (ok: bool)
      modifies this`registry
      ensures Outcome(old(View()), Register(crypto, old(View()), env, multiAddr, bn254, signature), ok, View())
    {
      if bn254 in registry.byBn254 || env.signerKey in registry.byEd25519 { return false; }
      if !Verify(crypto.order, crypto.point(env.signer.ascii), signature, bn254) { return false; }
      var node := Node(multiAddr, 0, bn254, env.signerKey);
      registry := registry.(inactive := registry.inactive[env.signer := node]);
      registry := registry.(byBn254 := registry.byBn254[bn254 := env.signer],
                            byEd25519 := registry.byEd25519[env.signerKey := env.signer]);
      return true;
    }

    method UnregisterNode(env: Env, key: Ed25519Key) returns (ok: bool)
      modifies this`registry
      ensures Outcome(old(View()), Unregister(old(View()), env, key), ok, View())
    {
      if env.signerKey != key { return false; }
      var node := GetNodeByEd25519(key);
      if node.None? || node.value.balance != 0 { return false; }
      registry := registry.(inactive := registry.inactive - {registry.byEd25519[key]});
      return true;
    }

    method UpdateNode(env: Env, newMultiAddr: string) returns (ok: bool)
      modifies this`registry
      ensures Outcome(old(View()), UpdateAddress(old(View()), env, newMultiAddr), ok, View())
    {
      var node := GetNode(env.signer);
      if node.None? { return false; }
      var updated := node.value.(multiAddr := newMultiAddr);
      if env.signer in registry.active.vals {
        registry := registry.(active := Insert(registry.active, env.signer, updated));
      } else {
        registry := registry.(inactive := registry.inactive[env.signer := updated]);
      }
      return true;
    }

    // ----- contracts/src/dao.rs

    method UpdateConfig(env: Env, field: Mainchain.UpdateConfig, value: U128) returns (ok: bool)
      modifies this`config
      ensures Outcome(old(View()), SetConfig(old(View()), env, field, value), ok, View())
    {
      if env.signer != dao { return false; }
      match field {
        case MinimumStake => config := config.(minimumStake := value);
        case EpochDelayForElection => config := config.(electionDelay := value % U64_LIMIT);
      }
      return true;
    }

    // ----- contracts/src/epoch.rs

    /** The loop that moves due nodes; on a panic it stops part way. */
    method MoveDueNodes(due: seq<AccountId>) returns (ok: bool)
      modifies this`registry
      ensures ok == Migrate(old(registry), due).Some?
      ensures ok ==> registry == Migrate(old(registry), due).value
    {
      for i := 0 to |due|
        invariant Migrate(registry, due[i..]) == Migrate(old(registry), due)
      {
        if due[i] !in registry.inactive { return false; }
        assert due[i..][1..] == due[i + 1..];
        var node := registry.inactive[due[i]];
        registry := registry.(active := Insert(registry.active, due[i], node),
                              inactive := registry.inactive - {due[i]},
                              pending := Remove(registry.pending, due[i]));
      }
      return true;
    }

    /** The part of `process_epoch` after the migration. */
    method ElectCommittees(env: Env) returns (ok: bool)
      modifies this`schedule
      ensures var t := Elect(crypto, old(schedule), config, registry.active.keys, env.Epoch(), env.gas);
              ok == t.Some? && schedule == if t.Some? then t.value else old(schedule)
    {
      var epoch, seats := env.Epoch(), schedule.committees;
      if schedule.bootstrapping && |registry.active.keys| < config.committeeSize { return true; }
      var committee := SelectCommittee(PrnStream(crypto.sha, schedule.lastRandom), registry.active.keys, config.committeeSize, env.gas);
      if committee.None? { return false; }
      if schedule.bootstrapping {
        schedule := schedule.(bootstrapping := false);
        for i := 0 to EPOCH_COMMITTEES_LOOKAHEAD
          invariant schedule == old(schedule).(bootstrapping := false, committees := schedule.committees)
          invariant schedule.committees == if i == 0 then seats
                                           else if i == 1 then seats[epoch := committee.value]
                                           else seats[epoch := committee.value][epoch + 1 := committee.value]
        {
          schedule := schedule.(committees := schedule.committees[epoch + i := committee.value]);
        }
      }
      schedule := schedule.(committees := schedule.committees[epoch + EPOCH_COMMITTEES_LOOKAHEAD := committee.value],
                            lastProcessedEpoch := epoch);
      return true;
    }

    method ProcessEpoch(env: Env) returns (ok: bool)
      modifies this`registry, this`schedule
      ensures Outcome(old(View()), NextEpoch(crypto, old(View()), env), ok, View())
    {
      if env.Epoch() <= schedule.lastProcessedEpoch { return true; }
      var before := registry;
      ok := MoveDueNodes(Due(registry.pending.keys, registry.pending.vals, env.Epoch()));
      if ok { ok := ElectCommittees(env); }
      if !ok { registry := before; }
    }

    // ----- contracts/src/data_request.rs

    method PostDataRequest(request: Request)
      modifies this`chain
      ensures View() == old(View()).(chain := old(chain).(accumulator := old(chain).accumulator + [request]))
    {
      chain := chain.(accumulator := chain.accumulator + [request]);
    }

    method ComputeMerkleRoot() returns (root: CryptoHash)
      ensures root == Merkle.Root(crypto.sha, chain.accumulator)
    {
      root := Merkle.Merklize(crypto.sha, chain.accumulator);
    }

    // ----- contracts/src/committee.rs

    method GetCurrentSlotLeader(env: Env) returns (leader: Leader)
      ensures leader == CurrentLeader(crypto, View(), env)
    {
      var committee := if env.Epoch() in schedule.committees then Some(schedule.committees[env.Epoch()]) else None;
      leader := SlotLeader(crypto.sha, committee, config.committeeSize, schedule.lastRandom, env.Slot());
    }

    // ----- contracts/src/batch.rs

    /** The fold over `signers` that rebuilds the aggregate key. */
    method ReconstructKey(committee: seq<AccountId>, signers: seq<AccountId>) returns (key: Option<Element>)
      requires signers != []
      ensures var keys := SignerKeys(registry.active.vals, committee, signers);
              key == if keys.Some? then Some(Sum(crypto.order, keys.value)) else None
    {
      var active := registry.active.vals;
      if signers[0] !in committee || signers[0] !in active { return None; }
      var acc := active[signers[0]].bn254;
      ghost var keys := [acc];
      for i := 1 to |signers|
        invariant |keys| == i && acc == Sum(crypto.order, keys)
        invariant forall k :: 0 <= k < i ==> signers[k] in committee && signers[k] in active && keys[k] == active[signers[k]].bn254
      {
        if signers[i] !in committee || signers[i] !in active { return None; }
        var signerKey := active[signers[i]].bn254;
        acc := Add(crypto.order, acc, signerKey);
        assert (keys + [signerKey])[..i] == keys;
        keys := keys + [signerKey];
      }
      SignerKeysAre(active, committee, signers, keys);
      return Some(acc);
    }

    /** What `post_signed_batch` demands once the epoch is up to date. */
    method BatchAllowed(env: Env, aggregateSignature: Element, aggregateKey: Element, signers: seq<AccountId>, leaderSignature: Element)
      returns (ok: bool)
      ensures ok <==> PostAllowed(crypto, View(), env, aggregateSignature, aggregateKey, signers, leaderSignature)
    {
      var leader := GetCurrentSlotLeader(env);
      if leader != Leader(Some(env.signer)) || env.signer !in registry.active.vals { return false; }
      var leaderKey := registry.active.vals[env.signer].bn254;
      if !Verify(crypto.order, crypto.point(LittleEndian(schedule.lastRandom, 32)), leaderSignature, leaderKey) { return false; }
      if signers == [] { return false; }
      var key := ReconstructKey(schedule.committees[env.Epoch()], signers);
      if key != Some(aggregateKey) { return false; }
      var root := ComputeMerkleRoot();
      return Verify(crypto.order, crypto.point(root.bytes), aggregateSignature, aggregateKey) && chain.numBatches + 1 < U64_LIMIT;
    }

    method StoreBatch(hash: BatchHash, root: CryptoHash)
      modifies this`chain
      ensures chain == AppendBatch(hash, root, old(chain))
    {
      var header := BatchHeader(chain.numBatches + 1, ZERO_HASH);
      var id := hash(MerklizedBatch(LatestBatchId(chain), header, root));
      var batch := Batch(header, chain.accumulator);
      chain := chain.(numBatches := chain.numBatches + 1);
      chain := chain.(batchById := chain.batchById[id := batch], idsByHeight := chain.idsByHeight[chain.numBatches := id]);
      chain := chain.(accumulator := []);
    }

    method PostSignedBatch(env: Env, aggregateSignature: Element, aggregateKey: Element, signers: seq<AccountId>, leaderSignature: Element)
      returns (ok: bool)
      modifies this`registry, this`schedule, this`chain
      ensures Outcome(old(View()), PostBatch(crypto, old(View()), env, aggregateSignature, aggregateKey, signers, leaderSignature), ok, View())
    {
      var nodes, seats := registry, schedule;
      ok := ProcessEpoch(env);
      if !ok { return; }
      ok := BatchAllowed(env, aggregateSignature, aggregateKey, signers, leaderSignature);
      if ok {
        schedule := schedule.(lastRandom := NextRandom(crypto, env, leaderSignature));
        var root := ComputeMerkleRoot();
        StoreBatch(HashBatch(crypto.sha), root);
      } else {
        registry, schedule := nodes, seats;
      }
    }
  }
}
