/** The invariant of the node registry, the total stake, and what balance updates and
    migrations do to both. */
module Staking {
  import opened Collections
  import opened Committee
  import opened Mainchain

  // ----- the registry invariant

  ghost predicate Indexed(r: Registry, a: AccountId) {
    exists k :: k in r.byEd25519 && r.byEd25519[k] == a
  }

  /** Active and inactive nodes are disjoint, an active node is not pending, every node
      is found under both of its keys, and a key leads to no other node. */
  ghost predicate WellFormed(r: Registry) {
    && (forall a :: a in r.active.vals ==> a !in r.inactive && a !in r.pending.vals)
    && (forall a :: NodeOf(r, a).Some? ==>
          && NodeOf(r, a).value.ed25519 in r.byEd25519 && r.byEd25519[NodeOf(r, a).value.ed25519] == a
          && NodeOf(r, a).value.bn254 in r.byBn254 && r.byBn254[NodeOf(r, a).value.bn254] == a)
    && (forall k :: k in r.byEd25519 && NodeOf(r, r.byEd25519[k]).Some? ==> NodeOf(r, r.byEd25519[k]).value.ed25519 == k)
    && (forall k :: k in r.byBn254 && NodeOf(r, r.byBn254[k]).Some? ==> NodeOf(r, r.byBn254[k]).value.bn254 == k)
    && (forall k :: k in r.byBn254 ==> Indexed(r, r.byBn254[k]))
  }

  /** No two nodes share a key of either kind. */
  lemma KeysAreUnique(r: Registry, a: AccountId, b: AccountId)
    requires WellFormed(r) && NodeOf(r, a).Some? && NodeOf(r, b).Some?
    requires NodeOf(r, a).value.ed25519 == NodeOf(r, b).value.ed25519 || NodeOf(r, a).value.bn254 == NodeOf(r, b).value.bn254
    ensures a == b
  {
  }

  ghost predicate SameIndexes(r: Registry, r': Registry) {
    r'.byEd25519 == r.byEd25519 && r'.byBn254 == r.byBn254
  }

  /** Two registries with the same indexes and the same nodes, differing only in how
      nodes are split between active and inactive. */
  ghost predicate SameNodes(r: Registry, r': Registry) {
    && SameIndexes(r, r')
    && (forall a :: NodeOf(r', a) == NodeOf(r, a))
    && r'.deposits == r.deposits && r'.requests == r.requests && r'.lastTotalBalance == r.lastTotalBalance
  }

  ghost predicate SameKeys(m: Option<Node>, n: Option<Node>) {
    m.Some? && n.Some? && m.value.ed25519 == n.value.ed25519 && m.value.bn254 == n.value.bn254
  }

  /** Nodes may go or change their balance, address and activity: as long as they keep
      their keys, and the split between active, inactive and pending is right, the
      registry stays well formed. */
  lemma WellFormedFrom(r: Registry, r': Registry)
    requires WellFormed(r) && SameIndexes(r, r')
    requires forall a :: NodeOf(r', a).Some? ==> SameKeys(NodeOf(r', a), NodeOf(r, a))
    requires forall a :: a in r'.active.vals ==> a !in r'.inactive && a !in r'.pending.vals
    ensures WellFormed(r')
  {
    forall k | k in r'.byBn254 ensures Indexed(r', r'.byBn254[k]) { assert Indexed(r, r.byBn254[k]); }
  }

  // ----- sums of balances

  ghost function Balances(nodes: map<AccountId, Node>): map<AccountId, nat> {
    map a | a in nodes :: nodes[a].balance
  }

  ghost function Staked(r: Registry): nat {
    MapSum(Balances(r.active.vals)) + MapSum(Balances(r.inactive))
  }

  lemma BalancesUpdate(nodes: map<AccountId, Node>, a: AccountId, node: Node)
    ensures MapSum(Balances(nodes[a := node])) + (if a in nodes then nodes[a].balance else 0)
         == MapSum(Balances(nodes)) + node.balance
  {
    MapSumUpdate(Balances(nodes), a, node.balance);
    assert Balances(nodes[a := node]) == Balances(nodes)[a := node.balance];
  }

  lemma BalancesRemove(nodes: map<AccountId, Node>, a: AccountId)
    ensures MapSum(Balances(nodes - {a})) + (if a in nodes then nodes[a].balance else 0) == MapSum(Balances(nodes))
  {
    if a in nodes {
      MapSumRemove(Balances(nodes), a);
      assert Balances(nodes - {a}) == Balances(nodes) - {a};
    } else {
      assert nodes - {a} == nodes;
    }
  }

  /** A node's balance is part of the stake. */
  lemma NodeWithinStake(r: Registry, a: AccountId)
    requires NodeOf(r, a).Some?
    ensures NodeOf(r, a).value.balance <= Staked(r)
  {
    if a in r.active.vals {
      MapSumEntry(Balances(r.active.vals), a);
    } else {
      MapSumEntry(Balances(r.inactive), a);
    }
  }

  // ----- filing a node under a new balance

  /** Filing replaces one node's record, wherever it ends up, and moves the stake by
      the change of its balance. */
  lemma FileNodeEffect(r: Registry, config: Config, epoch: nat, a: AccountId, known: Node, node: Node)
    requires WellFormed(r) && NodeOf(r, a) == Some(known)
    requires node.ed25519 == known.ed25519 && node.bn254 == known.bn254
    requires FileNode(r, config, epoch, a, node).Some?
    ensures var r' := FileNode(r, config, epoch, a, node).value;
            && SameIndexes(r, r')
            && r'.deposits == r.deposits && r'.requests == r.requests && r'.lastTotalBalance == r.lastTotalBalance
            && (forall b :: NodeOf(r', b) == if b == a then Some(node) else NodeOf(r, b))
            && Staked(r') + known.balance == Staked(r) + node.balance
  {
    FileNodeStake(r, config, epoch, a, known, node);
    forall b ensures NodeOf(FileNode(r, config, epoch, a, node).value, b) == if b == a then Some(node) else NodeOf(r, b) {
      FileNodeRecord(r, config, epoch, a, node, b);
    }
  }

  lemma FileNodeRecord(r: Registry, config: Config, epoch: nat, a: AccountId, node: Node, b: AccountId)
    requires FileNode(r, config, epoch, a, node).Some?
    ensures NodeOf(FileNode(r, config, epoch, a, node).value, b) == if b == a then Some(node) else NodeOf(r, b)
  {
    var r' := FileNode(r, config, epoch, a, node).value;
    if node.balance < config.minimumStake {
      assert r'.active.vals == r.active.vals - {a} && r'.inactive == r.inactive[a := node];
    } else if a in r.active.vals {
      assert r'.active.vals == r.active.vals[a := node] && r'.inactive == r.inactive;
    } else {
      assert r'.active.vals == r.active.vals && r'.inactive == r.inactive[a := node];
    }
  }

  lemma FileNodeStake(r: Registry, config: Config, epoch: nat, a: AccountId, known: Node, node: Node)
    requires WellFormed(r) && NodeOf(r, a) == Some(known)
    requires FileNode(r, config, epoch, a, node).Some?
    ensures Staked(FileNode(r, config, epoch, a, node).value) + known.balance == Staked(r) + node.balance
  {
    if a in r.active.vals {
      if node.balance >= config.minimumStake {
        BalancesUpdate(r.active.vals, a, node);
      } else {
        BalancesRemove(r.active.vals, a);
        BalancesUpdate(r.inactive, a, node);
      }
    } else {
      BalancesUpdate(r.inactive, a, node);
      BalancesRemove(r.active.vals, a);
    }
  }

  lemma FileNodeWellFormed(r: Registry, config: Config, epoch: nat, a: AccountId, known: Node, node: Node)
    requires WellFormed(r) && NodeOf(r, a) == Some(known)
    requires node.ed25519 == known.ed25519 && node.bn254 == known.bn254
    requires FileNode(r, config, epoch, a, node).Some?
    ensures WellFormed(FileNode(r, config, epoch, a, node).value)
  {
    FileNodeEffect(r, config, epoch, a, known, node);
    WellFormedFrom(r, FileNode(r, config, epoch, a, node).value);
  }

  // ----- migration

  lemma ActivateEffect(r: Registry, a: AccountId)
    requires WellFormed(r) && a in r.inactive
    ensures SameNodes(r, Activate(r, a)) && WellFormed(Activate(r, a)) && Staked(Activate(r, a)) == Staked(r)
  {
    var r' := Activate(r, a);
    BalancesUpdate(r.active.vals, a, r.inactive[a]);
    BalancesRemove(r.inactive, a);
    assert SameNodes(r, r');
    WellFormedFrom(r, r');
  }

  lemma {:induction false} MigrateKeepsNodes(r: Registry, due: seq<AccountId>)
    requires WellFormed(r) && Migrate(r, due).Some?
    ensures var r' := Migrate(r, due).value;
            SameNodes(r, r') && WellFormed(r') && Staked(r') == Staked(r)
    decreases |due|
  {
    if due != [] {
      ActivateEffect(r, due[0]);
      MigrateKeepsNodes(Activate(r, due[0]), due[1..]);
    }
  }

  lemma {:induction false} DueNoDup(keys: seq<AccountId>, vals: map<AccountId, nat>, epoch: nat)
    requires NoDup(keys)
    ensures NoDup(Due(keys, vals, epoch))
  {
    if keys != [] {
      DueNoDup(keys[1..], vals, epoch);
      assert keys[0] !in keys[1..];
    }
  }

  /** The migration loop ends exactly when every account on its list has an inactive
      record. */
  lemma {:induction false} MigrateRuns(r: Registry, due: seq<AccountId>)
    requires NoDup(due)
    ensures Migrate(r, due).Some? <==> forall a :: a in due ==> a in r.inactive
    decreases |due|
  {
    if due != [] {
      assert due[0] !in due[1..];
      assert forall a :: a in due <==> a == due[0] || a in due[1..];
      if due[0] in r.inactive { MigrateRuns(Activate(r, due[0]), due[1..]); }
    }
  }

  /** It then moves the accounts on its list and no others, with their records. */
  lemma {:induction false} MigrateMovesExactly(r: Registry, due: seq<AccountId>)
    requires NoDup(due) && forall a :: a in due ==> a in r.inactive
    requires Migrate(r, due).Some?
    ensures var r' := Migrate(r, due).value;
            && r'.active.vals == r.active.vals + (map a | a in due :: r.inactive[a])
            && r'.inactive == r.inactive - Elems(due)
            && r'.pending.vals == r.pending.vals - Elems(due)
    decreases |due|
  {
    if due == [] {
    } else {
      var rest := due[1..];
      assert due[0] !in rest;
      MigrateMovesExactly(Activate(r, due[0]), rest);
      MoveOneMore(r.active.vals, r.inactive, due);
      RemoveOneMore(r.inactive, due);
      RemoveOneMore(r.pending.vals, due);
    }
  }

  lemma MoveOneMore(active: map<AccountId, Node>, inactive: map<AccountId, Node>, due: seq<AccountId>)
    requires due != [] && due[0] !in due[1..] && forall b :: b in due ==> b in inactive
    ensures active[due[0] := inactive[due[0]]] + (map b | b in due[1..] :: (inactive - {due[0]})[b])
         == active + (map b | b in due :: inactive[b])
  {
  }

  lemma RemoveOneMore<V>(m: map<AccountId, V>, due: seq<AccountId>)
    requires due != []
    ensures m - {due[0]} - Elems(due[1..]) == m - Elems(due)
  {
    assert due == [due[0]] + due[1..];
  }

  /** What the epoch change does to the registry. */
  lemma NextEpochKeepsNodes(c: Crypto, s: State, env: Env)
    requires WellFormed(s.registry) && NextEpoch(c, s, env).Some?
    ensures var s' := NextEpoch(c, s, env).value;
            && SameNodes(s.registry, s'.registry) && WellFormed(s'.registry)
            && Staked(s'.registry) == Staked(s.registry)
            && s'.token == s.token && s'.chain == s.chain && s'.config == s.config && s'.dao == s.dao
  {
    var due := Due(s.registry.pending.keys, s.registry.pending.vals, env.Epoch());
    if Migrate(s.registry, due).Some? { MigrateKeepsNodes(s.registry, due); }
  }
}
