# SEDA main chain and node: a Dafny model

This project models the SEDA main-chain contract (a NEAR contract for staking, epochs,
committees and batches of data requests) together with the node code that feeds it: the
signature aggregation of `wasm/consensus`, the promise-queue runtime, peer discovery and
the event queue. It proves what these promise over every run.

Check everything with `dafny verify dfyconfig.toml`.

## How the model is laid out

| files | part of the system |
|---|---|
| `Collections`, `Bytes` | sequences, sums over maps, NEAR's unordered map, byte strings and borsh |
| `Merkle`, `BatchChain` | the Merkle root of the accumulator; the hash-linked batch log |
| `Bn254`, `Consensus`, `Aggregation` | signatures, the gossip protocol, and both ends of a signed batch |
| `Committee`, `CommitteeSchedule` | choosing a committee; which epochs have one, and who leads |
| `Leadership` | who is elected and who leads, down to the hashes; which batches are accepted |
| `Mainchain`, `CallEffects`, `Contract` | the contract as a state machine, what each call does account by account, and the object with mutable storage that refines it |
| `Staking`, `Conservation`, `Solvency` | the registry invariant, token conservation, deposits against balances |
| `Lifecycle`, `PendingQueue`, `EpochProgress`, `MinimumStake`, `Provenance`, `EveryRun` | delays, the election queue, when an epoch can be processed, stakes, origins of keys and settings, all invariants together |
| `Scenarios` | concrete runs of a new contract |
| `Runtime`, `RuntimeRuns`, `RuntimeRecords` | the promise-queue machine, its runs, and what recorded statuses mean |
| `PeerList`, `Discovery`, `EventQueue` | the node's peer lists, peer search and event queue |

The contract is a partial function `Mainchain.Apply` on states: `None` is a panic, after
which NEAR discards every change. A run (`History`) lists states, calls and which calls
were accepted; refused calls leave the state alone, and block heights are arbitrary, so
nothing below depends on the clock of the chain being monotone. `Contract.MainchainContract`
has the same storage as mutable fields; its methods are proved to follow `Apply`.

## Reading of the source

- **Hashing.** SHA-256 is a parameter. "No collision" is always said of the finite set of
  byte strings that a computation hashes, never of all strings.
- **bn254.** A group element is its exponent, a signature on a message with hash-to-curve
  exponent `h` under key `k` is `k * h` modulo the group order. The point at infinity gets
  no special treatment.
- **Arithmetic is checked**, as in debug builds; the release profile of the repository does
  not switch overflow checks on. `Solvency.DepositAcceptedExactly` and
  `Solvency.WithdrawAcceptedExactly` show which checks can fire in a reachable state: the
  subtraction in `burn`, and the sum of an epoch and the election delay.
- **One key per account.** `register_node` compares keys but not accounts. The runs below
  assume that an account always registers with the same key, as the implicit accounts of
  node operators do (chains/src/near_chain.rs:207-214).
  `Conservation.RegisterKeepsRegistryExactly` says what happens without it.
- **Gas.** `select_committee` rerolls without a bound of its own; `Env.gas` is the number
  of rerolls that a transaction can pay for. `Committee.FairSelectionEnds` removes it.
- **Consensus jobs** are atomic steps on a node's shared store. The job manager's
  documentation (node/src/app/job_manager.rs:8-14) promises this through event ids, but no
  code fills the list of running ids, so it is an assumption here.
- **Storage.** The nested maps `depositors` and `withdraw_requests` are flattened to maps
  from pairs. `UnorderedMap` keeps a vector of keys with removal by swapping, because the
  order of the active nodes decides who is selected.
- **Hash map iteration** in peer discovery is an arbitrary order, passed as a parameter;
  the clock is read once per search.

## Where the code does less than its comments or names suggest

- `pending_nodes` is described as a subset of the inactive nodes (contracts/src/lib.rs:71).
  `unregister_node` does not clear it: the claim holds exactly as long as no pending node is
  unregistered (`PendingQueue.RunKeepsQueueExactly`). `Scenarios.UnregisterCanOrphan` is a
  run of one operator's calls where it fails, and `PendingQueue.UnregisterHaltsEpochs` is
  what follows.
- An active node can be under the minimum stake, in exactly two ways
  (`MinimumStake.RunKeepsStakedExactly`, with a run for each in
  `Scenarios.QueueOutlivesStake` and `Scenarios.RaisedMinimumUnderstakes`).
- A repeat deposit overwrites the depositor's entry, so recorded deposits fall behind the
  node's balance by exactly the overwritten amounts
  (`Solvency.BalanceIsRecordedPlusStranded`, with a run in `Scenarios.RepeatDepositStrands`).
- `process_batch` shadows its store on a new batch, so the leader step that follows still
  posts the previous aggregate; the contract accepts it exactly when the batch is the same
  (`Aggregation.LeaderPostAcceptedExactly`, with a refused post in
  `Scenarios.StalePostRefused`).
- `register_node` lets one account register two key pairs, which breaks the registry
  (`Conservation.RegisterKeepsRegistryExactly`, with a run in
  `Scenarios.SecondRegistrationBreaks`).
- The Merkle tree has no leaf prefixes, so a request of sixty bytes, whose encoding is as
  long as two hashes, can stand for an inner node (`Merkle.SixtyBytesOverlap`). A root
  commits to the requests when their number is known (`Merkle.RootCommitsToRequests`), and
  without that when none of them is sixty bytes long (`Merkle.RootCommitsUnlessSixty`).
- The comment on `P2P::handle` promises a check that a signature is by a member of the
  committee; the code leaves it out. A post passes exactly when all signers may sign and
  their registered keys add up (`Aggregation.PassesExactly`); an outside signature stays as
  long as the batch does and blocks it (`Aggregation.OutsiderBlocks`, with an instance in
  `Scenarios.OutsiderStopsPost`).
- A later `CallSelf` of one promise queue replaces the queue built by an earlier one, and a
  broadcast promise stays pending (`RuntimeRuns.RunsAreLinked`, with a run that loses a
  queue in `RuntimeRuns.EarlierQueueIsLost`).
- `add_manual_peer` files its peer under Kademlia; `PeerList::add_peer` forgets neither a
  peer's old address nor an address's old peer (`PeerLists.AddKeepsTwoWayExactly`).
  `Discovery.TwoAddressesLinger` is a run of the server after which a closed connection is
  still listed; `Discovery.ClosedIsForgottenExactly` says when that happens.

## Model

| member | source | states |
|---|---|---|
| `Bytes.LittleEndianRoundTrip` | contracts/src/committee.rs:17-18 | a number that fits its width is read back from its little-endian bytes |
| `Bytes.LittleEndianDigits` | contracts/src/committee.rs:17-18 | byte i of the encoding is digit i to the base 256, the least significant first |
| `Bytes.ReadsBack` | contracts/src/committee.rs:17-18 | every byte string is the encoding of the number read from it |
| `Bytes.BorshStringParts` | contracts/src/merkle.rs:24-29 | a request is hashed as four bytes of its length, the least significant first, and its text |
| `Bytes.LeqIsLexicographic` | contracts/src/merkle.rs:7-11 | hashes are in order if and only if they are equal or the first has the smaller byte where they first differ |
| `Bytes.BorshStringInjective` | contracts/src/merkle.rs:24-29 | the hashed encoding of a request determines the request |
| `Merkle.InsertHash` | contracts/src/merkle.rs:46 | insertion keeps the hashes sorted and adds exactly one |
| `Merkle.SortHashes` | contracts/src/merkle.rs:46 | the sorted hashes are in order and a permutation of the leaf hashes |
| `Merkle.SortedByBytes` | contracts/src/merkle.rs:46 | in the sorted list, of two different neighbours the first has the smaller byte where they first differ |
| `Merkle.SortUnique` | contracts/src/merkle.rs:46 | sorting depends only on the multiset of hashes |
| `Merkle.SplitPoint` | contracts/src/merkle.rs:54-67 | the largest power of two below the number of leaves |
| `Merkle.NextPowerOfTwo` | contracts/src/merkle.rs:43 | the least power of two at or above the number of leaves |
| `Merkle.LevelKeepsRoot` | contracts/src/merkle.rs:56-66 | pairing neighbours, an odd last hash carried up unhashed, keeps the root of the top-down tree |
| `Merkle.CombineLevel` | contracts/src/merkle.rs:56-65 | one in-place pass over the array leaves the next level in its front half: no slot is read after it was overwritten |
| `Merkle.Merklize` | contracts/src/merkle.rs:39-69 | the in-place bottom-up loops return the root of the recursive top-down tree over the sorted leaves, and zero for no leaves |
| `Merkle.RootOrderInsensitive` | contracts/src/merkle.rs:39-69 | accumulators with the same requests, in any order, have the same root |
| `Merkle.TreeRootInjective` | contracts/src/merkle.rs:34-69 | without a collision, trees of one size with equal roots have equal leaves |
| `Merkle.RootCommitsToRequests` | contracts/src/data_request.rs:8-10 | without a collision, two accumulators of one length have equal roots if and only if they hold the same multiset of requests |
| `Merkle.LeafTreesInjective` | contracts/src/merkle.rs:34-69 | without a collision, trees of any sizes over leaves that are not as long as two hashes have equal roots only if they are equal |
| `Merkle.RootCommitsUnlessSixty` | contracts/src/data_request.rs:8-10 | without a collision, two accumulators of any lengths, both empty or both not, none of whose requests is sixty bytes long, have equal roots if and only if they hold the same multiset of requests |
| `Merkle.SixtyBytesOverlap` | contracts/src/merkle.rs:34-69 | a concrete request of sixty bytes with the root of two others and no collision among the inputs hashed |
| `Bn254.AddVerifies` | wasm/consensus/src/types/batch_signature.rs:62-78 | the sum of two signatures on a message verifies under the sum of the keys |
| `Bn254.SumVerifies` | contracts/src/batch.rs:88-107 | so does the sum of any number of them |
| `Bn254.SignaturePinsMessage` | contracts/src/batch.rs:103-107 | in a group of prime order a signature under a non-zero key verifies against one message point only |
| `Committee.SelectFromDistinct` | contracts/src/committee.rs:16-38 | the chosen indices are pairwise distinct, in range, and as many as asked for |
| `Committee.SeatsAreDrawn` | contracts/src/committee.rs:16-38 | seat i takes the index of counter i if it is free, and otherwise the index of the first later counter past the rerolls used so far that is, the rerolls counted on from seat to seat |
| `Committee.DrawIsUnique` | contracts/src/committee.rs:16-38 | there is only one such choice of seats |
| `Committee.CommitteeIsDrawn` | contracts/src/committee.rs:35-37 | the committee consists of the candidates at these seats |
| `Committee.CommitteeOf` | contracts/src/committee.rs:10-41 | a committee has the configured size and only candidates on it |
| `Committee.CommitteeIsDistinct` | contracts/src/committee.rs:10-41 | its members are pairwise distinct active nodes, so a committee implies that there are enough of them |
| `Committee.FreeIndex` | contracts/src/committee.rs:22-34 | the reroll loop computes the first index that is not taken, and the rerolls it used |
| `Committee.SelectCommittee` | contracts/src/committee.rs:10-41 | the loop over the seats computes that committee |
| `Committee.SelectMoreGas` | contracts/src/committee.rs:22-34 | the gas left over does not influence who is selected |
| `Committee.FairSelectionEnds` | contracts/src/committee.rs:16-38 | on a hash stream that keeps hitting every index, the reroll loop ends if and only if there are at least as many candidates as seats |
| `Mainchain.ExtendIsRun` | contracts/src/lib.rs:92-94 | any call can follow any run |
| `Mainchain.RunExists` | contracts/src/lib.rs:92-94 | every sequence of calls has a run from every state |
| `Mainchain.Due` | contracts/src/epoch.rs:31-36 | the accounts to migrate are exactly the pending ones whose epoch has come |
| `CallEffects.NewContract` | contracts/src/lib.rs:96-140 | the balances, settings, random number and empty maps of a new contract |
| `CallEffects.LedgerExactly` | contracts/src/fungible_token.rs:8-32 | every call changes the liquid balance of every account by exactly what it moves, and opens or closes exactly the account it names |
| `CallEffects.ActivityExactly` | contracts/src/node_registry.rs:42-89 | after a deposit or withdrawal its node is active if and only if it was and ends at the minimum stake or above, it is on exactly one side, and every other node stays where it was |
| `CallEffects.LeavesActiveExactly` | contracts/src/node_registry.rs:68-78 | over every run an active node becomes inactive if and only if a balance update of its own ends below the minimum |
| `CallEffects.RequestAcceptedExactly` | contracts/src/node_registry.rs:305-354 | in reachable states a withdrawal can be requested if and only if it is positive, recorded, none is pending, and its epoch fits 64 bits |
| `CallEffects.TransferAcceptedExactly` | contracts/src/fungible_token.rs:31 | in reachable states a transfer goes through if and only if it is positive, between two open accounts and covered: it never overflows |
| `CallEffects.AccountCallsAcceptedExactly` | contracts/src/fungible_token.rs:32 | in reachable states an account can be closed if and only if it is empty, unknown, or its owner insists |
| `CallEffects.RegisterExactly` | contracts/src/node_registry.rs:217-255 | a registration is accepted if and only if both keys are new and the bn254 key signed the account name, and files an empty node under both |
| `CallEffects.UnregisterAcceptedExactly` | contracts/src/node_registry.rs:257-267 | a node is unregistered only by its own key and while it holds nothing |
| `CallEffects.UpdateAcceptedExactly` | contracts/src/node_registry.rs:277-279 | the caller's node can be updated if and only if there is one |
| `CallEffects.CancelAcceptedExactly` | contracts/src/node_registry.rs:357-368 | a request can be cancelled for every key that was ever registered |
| `CallEffects.ConfigExactly` | contracts/src/dao.rs:54-60 | the DAO and nobody else sets the minimum stake, or the election delay up to 64 bits |
| `Staking.KeysAreUnique` | contracts/src/node_registry.rs:221-229 | in a well-formed registry no two nodes share an ed25519 or a bn254 key |
| `Staking.FileNodeEffect` | contracts/src/node_registry.rs:42-89 | a balance update replaces one node's record wherever the node ends up, and moves the total stake by the change |
| `Staking.FileNodeWellFormed` | contracts/src/node_registry.rs:42-89 | it keeps the registry well formed |
| `Staking.MigrateKeepsNodes` | contracts/src/epoch.rs:37-43 | the migration loop keeps every node record, both key indexes and the total stake |
| `Staking.MigrateRuns` | contracts/src/epoch.rs:37-43 | it runs through if and only if every account on its list has an inactive record |
| `Staking.MigrateMovesExactly` | contracts/src/epoch.rs:37-43 | it then moves those accounts and no others, with their records |
| `Staking.NextEpochKeepsNodes` | contracts/src/epoch.rs:20-70 | an epoch change changes no node record, token, batch or setting |
| `Conservation.RegisterKeepsRegistryExactly` | contracts/src/node_registry.rs:217-255 | a registration keeps the registry well formed if and only if its account was never registered before |
| `Conservation.UnregisterEffect` | contracts/src/node_registry.rs:257-273 | unregistering removes the inactive record of that node only, leaves an active one in place, and moves no stake |
| `Conservation.UpdateAddressEffect` | contracts/src/node_registry.rs:277-295 | an address change changes that address only |
| `Conservation.DepositEffect` | contracts/src/node_registry.rs:91-122 | a deposit changes one node, by its amount, and keeps tokens conserved and the registry well formed |
| `Conservation.WithdrawEffect` | contracts/src/node_registry.rs:124-183 | so does a withdrawal |
| `Conservation.TransferKeepsSum` | contracts/src/fungible_token.rs:31 | a token transfer keeps the sum of the balances |
| `Conservation.TokenAccountsKeepSum` | contracts/src/fungible_token.rs:32 | opening an account keeps the sum; closing one takes its balance off the sum and the supply alike |
| `Conservation.StepKeepsInv` | contracts/src/lib.rs:53-90 | every accepted call keeps conservation and registry well-formedness |
| `Conservation.NewIsConserved` | contracts/src/lib.rs:96-140 | a new contract satisfies both |
| `Conservation.RunKeepsInv` | contracts/src/node_registry.rs:91-183 | in every state of every run: liquid balances plus `last_total_balance` equal the supply, `last_total_balance` equals the sum of node balances, the supply fits 128 bits, active and inactive are disjoint, every node is found under both keys |
| `Solvency.StepTogether` | contracts/src/node_registry.rs:91-183 | every call moves a node's balance and its recorded deposits together, up to the entry it overwrites |
| `Solvency.BalanceIsRecordedPlusStranded` | contracts/src/node_registry.rs:98-112 | over every run a node's balance is its recorded deposits plus all overwritten entries |
| `Solvency.ReachableIsSolvent` | contracts/src/node_registry.rs:126-168 | in every reachable state the deposits into a node, over all depositors, are at most its balance |
| `Solvency.DepositAcceptedExactly` | contracts/src/node_registry.rs:91-122 | in reachable states a deposit goes through if and only if the tokens and the node exist and the election epoch fits 64 bits: no sum overflows |
| `Solvency.WithdrawAcceptedExactly` | contracts/src/node_registry.rs:124-183 | a withdrawal goes through if and only if it is positive, recorded, requested and due, and the account can receive it: the node balance check and the total never stand in the way |
| `Lifecycle.RunKeepsOrdered` | contracts/src/node_registry.rs:42-89 | the key vectors of the active and pending nodes list each key once |
| `Lifecycle.StepQueue` | contracts/src/node_registry.rs:45-60 | a pending entry is new exactly when the call updates the balance of that very node, not active, to at least the minimum, and is then for the current epoch plus the delay; only an epoch change activates a node, when it is due |
| `Lifecycle.ActivationWaitsForDelay` | contracts/src/epoch.rs:31-43 | over every run a node turns active no earlier than the election delay after the last balance update of that node that queued it, the entry standing in between |
| `Lifecycle.StepRequest` | contracts/src/node_registry.rs:323-348 | how each call treats one withdrawal request: its owner makes it, with amount and epoch, where there was none, its owner takes it away by withdrawing or cancelling, and everything else leaves it alone |
| `Lifecycle.WithdrawalAnswersRequest` | contracts/src/node_registry.rs:141-173 | every accepted withdrawal answers a request by the same account for the same node, at least the delay earlier, neither cancelled nor used since |
| `Lifecycle.RequestsPayOnce` | contracts/src/node_registry.rs:170-173 | no request pays out twice |
| `PendingQueue.StepKeepsQueueExactly` | contracts/src/node_registry.rs:257-273 | a call keeps pending within inactive if and only if it does not unregister a pending node |
| `PendingQueue.RunKeepsQueueExactly` | contracts/src/lib.rs:71-72 | over every run pending stays within inactive if and only if no pending node was unregistered |
| `PendingQueue.EpochMigratesExactly` | contracts/src/epoch.rs:31-43 | with a sound queue the migration always goes through and moves exactly the pending nodes whose epoch has come, with their records |
| `PendingQueue.UnregisterOrphans` | contracts/src/node_registry.rs:257-273 | unregistering a pending node leaves its entry without a node, its key still taken |
| `PendingQueue.UnregisterHaltsEpochs` | contracts/src/epoch.rs:37-43 | over every run, once a pending node has been unregistered, no later call processes the epoch for which it was queued or a later one |
| `EpochProgress.EpochProcessableExactly` | contracts/src/epoch.rs:20-70 | on a fair hash stream an unprocessed epoch can be processed, with enough gas, if and only if every due account has an inactive record and bootstrapping goes on or there are at least as many nodes as seats |
| `EpochProgress.TooFewNodesStopEpochs` | contracts/src/epoch.rs:61-68 | after bootstrapping fewer nodes than seats stop the epochs, whatever the hashes and the gas |
| `EpochProgress.ElectsAtExactly` | contracts/src/epoch.rs:23-68 | over every run a call elects if and only if it is an accepted epoch call past the last processed epoch, with bootstrapping over or enough nodes to end it |
| `MinimumStake.BalanceUpdateKeepsStaked` | contracts/src/node_registry.rs:68-88 | a deposit or withdrawal never leaves an active node under the minimum stake |
| `MinimumStake.EpochStaked` | contracts/src/epoch.rs:31-43 | an epoch change does, if and only if it activates a due node that is under the minimum |
| `MinimumStake.StepKeepsStakedExactly` | contracts/src/dao.rs:54-60 | the only other call that can is one that raises the minimum |
| `MinimumStake.RunKeepsStakedExactly` | contracts/src/node_registry.rs:42-89 | over every run all active nodes meet the minimum if and only if neither happened |
| `Provenance.KeysWereProven` | contracts/src/node_registry.rs:231-253 | every indexed bn254 key was registered by the account it leads to with a valid signature on that account's name, and never changes hands |
| `Provenance.OnlyDaoConfigures` | contracts/src/dao.rs:42-60 | over every run the settings stay those of the start unless the original DAO account changes them |
| `CommitteeSchedule.ElectIsFull` | contracts/src/epoch.rs:46-68 | an election fills the right epochs with one full committee of distinct active nodes |
| `CommitteeSchedule.CommitteesExactly` | contracts/src/epoch.rs:46-68 | over every run the epochs with a committee are the first processed one, the one after it, and the second after each processed one; every committee is full and without repetition |
| `CommitteeSchedule.CommitteesPermanent` | contracts/src/epoch.rs:54-65 | a committee is written once and never replaced |
| `CommitteeSchedule.LeaderSitsOnCommittee` | contracts/src/committee.rs:55-67 | whenever the current epoch has a committee, the slot leader exists and is a member; with committees of size zero asking panics |
| `Leadership.LeaderExactly` | contracts/src/committee.rs:55-67 | the leader of a slot is the member of the epoch's committee at the seat that the hash of the last random number and the slot gives |
| `Leadership.BatchAcceptedExactly` | contracts/src/batch.rs:56-107 | a batch is accepted if and only if its caller holds the leading seat, is active and signed the last random number, all signers are active committee members whose keys add up to the aggregate key, and the aggregate signature is on the root |
| `Leadership.BatchesComeFromLeaders` | contracts/src/batch.rs:60-75 | over every run every accepted batch comes from the leading seat of the committee of its epoch, drawn with the random number before it |
| `Leadership.RandomExactly` | contracts/src/batch.rs:76-79 | over every run the random number changes with an accepted batch only, to the hash of the leader's signature and the slot |
| `Leadership.MigratedInOrder` | contracts/src/epoch.rs:37-43 | migrated nodes follow the active ones in the order of migration |
| `Leadership.DueInOrder` | contracts/src/epoch.rs:31-36 | which is the order in which they are stored as pending |
| `Leadership.ElectionsAreDrawn` | contracts/src/epoch.rs:61-65 | over every run an election seats, for the second epoch ahead, the candidates that the hashes of the last random number draw |
| `BatchChain.BorshBatchInjective` | contracts/src/batch.rs:29-35 | the hashed encoding of a batch determines the batch |
| `BatchChain.PostAppends` | contracts/src/batch.rs:109-133 | an accepted batch appends to the log and nothing else in it |
| `BatchChain.ChainIntegrity` | contracts/src/batch.rs:103-130 | over every run heights are exactly 1 to `num_batches`, and each id is the hash of its predecessor's id, its header and the Merkle root of the requests taken |
| `BatchChain.NoRequestLost` | contracts/src/batch.rs:109-133 | the requests taken by the batches in height order, followed by the accumulator, are all posted requests in order |
| `BatchChain.ReadsBackExactly` | contracts/src/batch.rs:128-130 | every height reads back the batch posted there if and only if the hash has no collision among the run's batches |
| `BatchChain.StoredRequestsComplete` | contracts/src/data_request.rs:17-19 | without a collision the stored transactions in height order, followed by the accumulator, are all posted requests in order |
| `BatchChain.LogIsPermanent` | contracts/src/batch.rs:128-130 | without a collision no later call changes an earlier id or batch |
| `BatchChain.IdCommitsToPast` | contracts/src/batch.rs:40-42 | two logs that share one id share its height, all earlier ids and the roots of all earlier batches |
| `EveryRun.ReachableStatesAreSound` | contracts/src/lib.rs:53-90 | conservation, registry, solvency, schedule and batch log together, in every state of every run of a new contract |
| `Scenarios.LeaderPostHappens` | contracts/src/batch.rs:45-135 | for every node and request, a run of a new contract (register, stake, take the seat, post the request) whose last accepted call is the post made by that node's own jobs, with that request as its batch |
| `Scenarios.StalePostRefused` | wasm/consensus/src/tasks/batch.rs:166-167 | for every scheme of prime order that tells the two roots apart, a run in which the leader signed the batch before a request came in, posts that aggregate for the new batch, and is refused |
| `Scenarios.ToyTellsApart` | wasm/consensus/src/tasks/batch.rs:166-167 | a concrete scheme of that kind, for every request |
| `Scenarios.OutsiderStopsPost` | wasm/consensus/src/tasks/p2p.rs:41-97 | a leader whose post would be accepted receives one valid message by an unregistered key and then makes no post |
| `Scenarios.RaisedMinimumUnderstakes` | contracts/src/dao.rs:54-60 | a run in which the DAO raises the minimum above the stake of the active node |
| `Scenarios.RepeatDepositStrands` | contracts/src/node_registry.rs:102-109 | a run of two deposits after which the node holds three tokens and the record shows two |
| `Scenarios.SecondRegistrationBreaks` | contracts/src/node_registry.rs:221-254 | a run of two registrations by one account that breaks registry well-formedness |
| `Scenarios.UnregisterCanOrphan` | contracts/src/node_registry.rs:257-273 | a run in which one operator stakes, takes the stake back when its epoch comes, and unregisters, leaving a pending entry without a node |
| `Scenarios.QueueOutlivesStake` | contracts/src/epoch.rs:31-43 | the same run up to the withdrawal, after which the epoch change activates the empty node |
| `Contract.MainchainContract.constructor` | contracts/src/lib.rs:96-140 | the storage of a new contract |
| `Contract.MainchainContract.HandleNodeBalanceUpdate` | contracts/src/node_registry.rs:42-89 | files a node as the state machine does |
| `Contract.MainchainContract.Deposit` | contracts/src/node_registry.rs:91-122 | the in-place deposit follows the state machine, and a refused one leaves everything as it was |
| `Contract.MainchainContract.WithdrawAllowed` | contracts/src/node_registry.rs:126-157 | accepts exactly the withdrawals that pass all checks of the source |
| `Contract.MainchainContract.Withdraw` | contracts/src/node_registry.rs:124-183 | the in-place withdrawal follows the state machine |
| `Contract.MainchainContract.MoveDueNodes` | contracts/src/epoch.rs:37-43 | the migration loop computes the recursive migration, and fails where that does |
| `Contract.MainchainContract.ElectCommittees` | contracts/src/epoch.rs:46-68 | the election fills three epochs when bootstrapping ends and one afterwards |
| `Contract.MainchainContract.ProcessEpoch` | contracts/src/epoch.rs:20-70 | the epoch change follows the state machine, undone as a whole when any part panics |
| `Contract.MainchainContract.ComputeMerkleRoot` | contracts/src/data_request.rs:8-10 | the root of the reference tree over the accumulator |
| `Contract.MainchainContract.ReconstructKey` | contracts/src/batch.rs:83-96 | the fold over signers is the sum of their registered keys, refused if any is off the committee or inactive |
| `Contract.MainchainContract.BatchAllowed` | contracts/src/batch.rs:60-107 | accepts exactly the batches that pass all checks of the source |
| `Contract.MainchainContract.StoreBatch` | contracts/src/batch.rs:109-133 | the in-place updates append one batch and clear the accumulator |
| `Contract.MainchainContract.PostSignedBatch` | contracts/src/batch.rs:45-135 | the whole call follows the state machine |
| `Consensus.ConsensusNode.HandleP2P` | wasm/consensus/src/tasks/p2p.rs:41-121 | the p2p job adds a message if and only if it verifies, is for the batch at hand and its key is new |
| `Consensus.ConsensusNode.BatchStep1` | wasm/consensus/src/tasks/batch.rs:82-273 | the batch job updates the store, broadcasts the stored bytes or its new message, and posts, the post made from the store as it was loaded |
| `Consensus.HexDigits` | chains/src/near_chain.rs:207-214 | an implicit account is its key in lower-case hexadecimal digits |
| `Consensus.StoreFollowsJobs` | wasm/consensus/src/tasks/batch.rs:122-209 | over every run of jobs the store is for the root and slot of the last batch job and holds the node's message for that root |
| `Consensus.BroadcastsExactly` | wasm/consensus/src/tasks/batch.rs:128-207 | over every run of jobs a batch job broadcasts if and only if its root or slot is new: its own signature for a new root, the same message again in a new slot |
| `Consensus.BroadcastIsAdded` | wasm/consensus/src/tasks/p2p.rs:68-97 | every node that works on that root and lacks the signature adds it |
| `Consensus.PostsExactly` | wasm/consensus/src/tasks/batch.rs:115-119 | over every run of jobs a node posts if and only if it leads the slot and holds as many signatures by different keys as there are seats, and signs the random number |
| `Consensus.IncludeSums` | wasm/consensus/src/tasks/p2p.rs:82-97 | adding a message keeps both aggregates equal to the sums over the messages added |
| `Consensus.IncludeSigned` | wasm/consensus/src/tasks/p2p.rs:70-97 | and the signatures exactly those of distinct keys that verify |
| `Consensus.StoreAggregates` | wasm/consensus/src/tasks/batch.rs:122-209 | over every run of jobs the store's aggregates are the sums over its distinct, valid signatures |
| `Consensus.AsManySigners` | wasm/consensus/src/tasks/p2p.rs:92-97 | there are as many signers as signatures |
| `Consensus.AggregateVerifies` | wasm/consensus/src/types/batch_signature.rs:62-78 | the aggregate signature verifies for the store's header under the aggregate key |
| `Aggregation.ReconstructionAgrees` | contracts/src/batch.rs:81-100 | the contract rebuilds, from the signers, the keys that the node added up |
| `Aggregation.LeaderPostAccepted` | contracts/src/batch.rs:45-135 | after any run of jobs, if gossiped pairs match the registry and the store is for the contract's root, the leader's post is accepted |
| `Aggregation.LeaderPostAcceptedExactly` | wasm/consensus/src/tasks/batch.rs:166-167 | a leader with a current view is accepted if and only if the store it loaded was already for that batch |
| `Aggregation.PassesExactly` | contracts/src/batch.rs:81-107 | with no assumption on gossip, a post for the contract's root passes if and only if every signer is an active committee member and their registered keys add up to the aggregate |
| `Aggregation.EntriesStay` | wasm/consensus/src/tasks/batch.rs:128-153 | over every run of jobs the messages in the store stay as long as the batch stays the same |
| `Aggregation.OutsiderBlocks` | wasm/consensus/src/tasks/p2p.rs:27-63 | once a signature from outside the committee is in the store, every later post for the same batch is refused |
| `Aggregation.SignersAreCommittee` | wasm/consensus/src/tasks/batch.rs:236-272 | a post with as many signatures as seats is signed by exactly the committee, each member once |
| `Aggregation.ReachableSignersAreCommittee` | contracts/src/committee.rs:16-40 | and that holds in every reachable contract state |
| `Runtime.PromiseRuntime.HostCall` | runtime/sdk/src/promises/promise.rs:25-41 | the host call follows the step function; what its status says is in `RuntimeRecords.StatusesAreEarned` |
| `Runtime.PromiseRuntime.ExecutePromise` | runtime/core/src/runtime.rs:114-268 | the loop body follows the step function |
| `Runtime.PromiseRuntime.ExecuteLevel` | runtime/core/src/runtime.rs:114-268 | the loop over one queue follows the recursive run, ending at an error |
| `Runtime.PromiseRuntime.ExecutePromiseQueue` | runtime/core/src/runtime.rs:93-284 | the recursion over queues follows the machine |
| `Runtime.PromiseRuntime.StartRuntime` | runtime/core/src/runtime.rs:286-352 | the result is the last promise of the last finished queue, which is never empty |
| `Runtime.TracedQueuesNonEmpty` | runtime/core/src/runtime.rs:325-335 | every traced queue is non-empty, so the final pops never fail |
| `Runtime.MoreFuelSameRun` | runtime/core/src/runtime.rs:271-283 | the fuel bound does not influence a run that ends by itself |
| `RuntimeRecords.StepIsExplained` | runtime/core/src/runtime.rs:117-267 | a promise has at most one event, which explains its status: the guest's result, the host's value or error, or a rejection without any event |
| `RuntimeRecords.RunsAreExplained` | runtime/sdk/src/promises/promise.rs:25-41 | over every run a host promise is fulfilled with v if and only if the host answered with v, and rejected with e if and only if it failed with e; a guest call holds the guest's result; a forbidden action and a value that is not UTF-8 are rejected without an effect |
| `RuntimeRecords.RunsAreTrue` | runtime/core/src/runtime.rs:93-284 | over every run each logged answer is what the guest or host gives at that point, and the outside world is where these answers lead |
| `RuntimeRecords.StatusesAreEarned` | runtime/core/src/runtime.rs:286-320 | all of this from the entry point, which is the first call of every run |
| `RuntimeRecords.RejectedNames` | runtime/sdk/src/promises/actions.rs:27-40 | the names under which a limited runtime rejects actions |
| `RuntimeRuns.StepLog` | runtime/core/src/runtime.rs:117-267 | a promise has at most one effect, one that its mode allows |
| `RuntimeRuns.LevelRuns` | runtime/core/src/runtime.rs:114-268 | a queue ends with every promise settled, or is broken off at a guest call that trapped with all earlier promises settled and all later ones untouched; in both cases each guest call saw the recorded statuses before it |
| `RuntimeRuns.RunsAreLinked` | runtime/core/src/runtime.rs:93-284 | over every run each level, a broken-off one included, is the queue built by the last guest call of the level before, and every guest call, a trapped one included, saw the final status of every earlier promise of its level |
| `RuntimeRuns.StartIsLinked` | runtime/core/src/runtime.rs:286-352 | `start_runtime` makes such a run; one that ends normally ends because its last level built nothing, and one that ends in an error has a broken-off level |
| `RuntimeRuns.EarlierQueueIsLost` | runtime/core/src/runtime.rs:203-204 | a concrete guest whose run ends normally without ever running a queue that it built |
| `RuntimeRuns.LimitedHasNoEffects` | runtime/sdk/src/promises/actions.rs:20-25 | in limited mode no database, chain, event or broadcast effect ever happens |
| `PeerLists.PeerList.Add` | p2p/src/libp2p/peer_list.rs:55-62 | both maps after an addition |
| `PeerLists.PeerList.Set` | p2p/src/libp2p/peer_list.rs:82-88 | both maps after a peer id is set, refused for an unknown address |
| `PeerLists.PeerList.RemovePeerByAddr` | p2p/src/libp2p/peer_list.rs:90-100 | both maps after a removal by address |
| `PeerLists.PeerList.RemovePeerById` | p2p/src/libp2p/peer_list.rs:102-110 | both maps after a removal by peer |
| `PeerLists.AddKeepsTwoWayExactly` | p2p/src/libp2p/peer_list.rs:55-62 | adding keeps the two maps inverse if and only if neither the address nor the peer is paired otherwise |
| `PeerLists.SetKeepsTwoWayExactly` | p2p/src/libp2p/peer_list.rs:82-88 | the same for setting a peer id |
| `PeerLists.RemovalKeepsTwoWay` | p2p/src/libp2p/peer_list.rs:90-110 | removals keep the maps inverse, and removing by peer or by its address is the same |
| `Discovery.CurrentMethod` | p2p/src/libp2p/discovery_status.rs:84-114 | a search method is enabled, below its maximum and of lower priority than the one skipped |
| `Discovery.DiscoveryStatus.IsUnusedAddr` | p2p/src/libp2p/discovery_status.rs:59-77 | an address is unused if it is not connected and past its cooldown, which is then dropped |
| `Discovery.DiscoveryStatus.CurrentDiscoveryMethod` | p2p/src/libp2p/discovery_status.rs:84-114 | the first method with room |
| `Discovery.DiscoveryStatus.AddConnectedPeer` | p2p/src/libp2p/discovery_status.rs:121-123 | sets the peer of a listed address; any other ends the server |
| `Discovery.DiscoveryStatus.RemoveConnectedPeer` | p2p/src/libp2p/discovery_status.rs:125-155 | forgets a connection and, unless manual, where its peer was found |
| `Discovery.DiscoveryStatus.GetNextPeer` | p2p/src/libp2p/discovery_status.rs:157-204 | the loop hands out the first unused address in iteration order |
| `Discovery.P2PServer.SearchNewPeer` | p2p/src/libp2p/mod.rs:82-100 | the mutual recursion ends because the skipped priority rises, follows the specification, and dials at most one peer |
| `Discovery.P2PServer.SearchPeers` | p2p/src/libp2p/mod.rs:108-148 | dial what was handed out, search on below this priority, or ask Kademlia |
| `Discovery.NextPeerExactly` | p2p/src/libp2p/discovery_status.rs:157-204 | an address is handed out if and only if the list offers an unused one, and nothing else changes |
| `Discovery.NextPeerIsFirst` | p2p/src/libp2p/discovery_status.rs:157-204 | it is the first one in iteration order |
| `Discovery.SearchServesFirst` | p2p/src/libp2p/mod.rs:82-148 | for every iteration order a search dials for the method of highest priority that has room and an unused address; if there is none it changes nothing, and asks Kademlia exactly when Kademlia has room |
| `Discovery.ConnectionsStayCapped` | p2p/src/libp2p/discovery_status.rs:45-114 | over every run, as long as the server is up, the connected entries of each type stay within that type's maximum |
| `Discovery.SettingsAreKept` | p2p/src/libp2p/discovery_status.rs:92-111 | over every run a mechanism that is switched off has no connection, and one with a maximum has no more than that |
| `Discovery.CastsExactly` | p2p/src/libp2p/discovery_status.rs:86-107 | the casts keep numbers modulo a power of two, so a negative maximum is no bound |
| `Discovery.EnoughPeersNoDial` | p2p/src/libp2p/discovery_status.rs:85-88 | no search dials or changes anything while `out_peers` or more peers are connected |
| `Discovery.TooFewPeersDial` | p2p/src/libp2p/mod.rs:82-148 | with fewer a search dials if and only if some mechanism can serve |
| `Discovery.ForgottenWhereFound` | p2p/src/libp2p/discovery_status.rs:125-139 | a closed connection is forgotten by the mechanism that found it, unless manual, and by no other |
| `Discovery.FiledUnder` | p2p/src/libp2p/discovery_status.rs:170-209 | where a peer that was found is filed, one added by hand under Kademlia |
| `Discovery.ClosedIsForgottenExactly` | p2p/src/libp2p/discovery_status.rs:125-139 | closing a connection removes every entry of its peer if and only if the peer is listed at no address but the one on record |
| `Discovery.TwoAddressesLinger` | p2p/src/libp2p/mod.rs:163-186 | a concrete run of seven events after which an address is listed under a peer that is gone, counts against its type, and is not handed out |
| `Discovery.CooldownRespected` | p2p/src/libp2p/discovery_status.rs:57-77 | over every run an address that failed is not dialled before its cooldown ends |
| `EventQueues.EventQueue.GetNext` | node/src/event_queue.rs:14-25 | takes the first event whose id is not skipped |
| `EventQueues.TakeAt` | node/src/event_queue.rs:14-25 | the event taken is the first whose id is not skipped, and the others keep their order |
| `EventQueues.TakeKeepsOrder` | node/src/event_queue.rs:14-25 | an event is taken before every later one of its id, and its id is not skipped |
| `EventQueues.TakeNoneExactly` | node/src/event_queue.rs:14-25 | nothing is taken if and only if every waiting event is skipped |
| `EventQueues.DeliveredInOrder` | node/src/event_queue.rs:9-26 | for any interleaving and any skip lists, per id, delivered followed by queued equals added |

## Left out

- SHA-256, the bn254 curve and pairing, ed25519 and key derivation: foreign libraries, idealised as above.
- Storage costs and refunds (contracts/src/storage.rs): the attached deposit is taken to suffice.
- Views with pagination, logs and token metadata: no state behind them.
- The fungible-token standard beyond transfer, account opening and account closing: transfers with a receiver call are not modelled.
- WASM host imports, WASI set-up, standard output and error of the guest: the guest is an arbitrary function, and every failure to start it is one error with a text.
- Error texts of the runtime other than that of the limited mode: the text for a database value that is not UTF-8 is a placeholder.
- Runtime.PromiseRuntime.ExecutePromiseQueue: a guest may build queues for ever, so the model carries a bound on their number; `Runtime.MoreFuelSameRun` shows that it does not matter for runs that end.
- Discovery.P2PServer.SearchNewPeer: chain peers and unicast messages are unimplemented in the source; no method of the model searches on chain.
- Committee.SelectCommittee: the counter fed to the hash is not wrapped at 64 bits, which takes more rerolls than a transaction can make.
- Gossip for a batch that the node does not know panics in the source; the model leaves the store alone.
- RPC clients, HTTP, SQLite, actors, command lines and configuration files: plumbing without a property of this kind.
