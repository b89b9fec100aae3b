/** Concrete runs of a new contract: one for each promise that the code does not keep,
    and one that shows a signed batch going through. */
module Scenarios {
  import opened Bytes
  import opened Collections
  import opened Bn254
  import opened Committee
  import opened Mainchain
  import opened Staking
  import opened Conservation
  import opened Solvency
  import opened PendingQueue
  import opened MinimumStake
  import opened Consensus
  import opened Aggregation
  import BatchChain
  import Leadership
  import Merkle

  // ----- building a run

  ghost function Begin(s: State): History {
    History([s], [], [])
  }

  lemma ThenAccepted(c: Crypto, h: History, step: Step, s': State) returns (h': History)
    requires IsRun(c, h) && Apply(c, h.states[|h.steps|], step) == Some(s')
    ensures IsRun(c, h') && h' == History(h.states + [s'], h.steps + [step], h.accepted + [true])
  {
    ExtendIsRun(c, h, step);
    h' := Extend(c, h, step);
  }

  lemma ThenRefused(c: Crypto, h: History, step: Step) returns (h': History)
    requires IsRun(c, h) && Apply(c, h.states[|h.steps|], step) == None
    ensures IsRun(c, h') && h' == History(h.states + [h.states[|h.steps|]], h.steps + [step], h.accepted + [false])
  {
    ExtendIsRun(c, h, step);
    h' := Extend(c, h, step);
  }

  // ----- one operator, who holds all tokens and makes every call

  datatype Operator = Operator(account: AccountId, key: Ed25519Key, bn254: Element)

  /** A call in the first epoch, or at the start of the second one after it. */
  function Early(o: Operator, call: Call): Step { Step(Env(0, o.account, o.key, 0), call) }
  function Late(o: Operator, call: Call): Step { Step(Env(640, o.account, o.key, 0), call) }

  function Registration(c: Crypto, o: Operator): Call {
    RegisterNode("", o.bn254, Sign(c.order, c.point(o.account.ascii), o.bn254))
  }

  /** What changes while the operator's node is inactive. */
  datatype Book = Book(
    balance: nat, pending: UnorderedMap<AccountId, nat>,
    deposits: map<(AccountId, Ed25519Key), nat>, requests: map<(AccountId, Ed25519Key), WithdrawRequest>)

  const NO_NODES: UnorderedMap<AccountId, Node> := UnorderedMap([], map[])
  const NO_ENTRIES: UnorderedMap<AccountId, nat> := UnorderedMap([], map[])

  function Inactive(o: Operator, supply: U128, size: U64, b: Book): State
    requires b.balance <= supply
  {
    New(o.account, supply, size, 0).(
      token := Token(map[o.account := supply - b.balance], supply),
      registry := Registry(NO_NODES, map[o.account := Node("", b.balance, o.bn254, o.key)], b.pending,
                           map[o.key := o.account], map[o.bn254 := o.account], b.deposits, b.requests, b.balance))
  }

  lemma Registers(c: Crypto, o: Operator, supply: U128, size: U64)
    ensures Apply(c, New(o.account, supply, size, 0), Early(o, Registration(c, o)))
         == Some(Inactive(o, supply, size, Book(0, NO_ENTRIES, map[], map[])))
  {
    ModIdempotent(o.bn254 * c.point(o.account.ascii), c.order);
  }

  function Entry(o: Operator): (AccountId, Ed25519Key) { (o.account, o.key) }

  function Queued(o: Operator): UnorderedMap<AccountId, nat> { UnorderedMap([o.account], map[o.account := 2]) }

  function AfterDepositing(o: Operator, b: Book, amount: nat): Book {
    Book(b.balance + amount, if b.balance + amount >= INIT_MINIMUM_STAKE then Insert(b.pending, o.account, 2) else b.pending,
         b.deposits[Entry(o) := amount], b.requests)
  }

  lemma SingleEntry<V>(a: AccountId, v: V, w: V)
    ensures map[a := v][a := w] == map[a := w]
  {
  }

  lemma Deposits(o: Operator, supply: U128, size: U64, b: Book, amount: nat)
    requires b.balance + amount <= supply
    ensures DepositInto(Inactive(o, supply, size, b), Env(0, o.account, o.key, 0), amount, o.key)
         == Some(Inactive(o, supply, size, AfterDepositing(o, b, amount)))
  {
    SingleEntry(o.account, supply - b.balance, supply - b.balance - amount);
    SingleEntry(o.account, Node("", b.balance, o.bn254, o.key), Node("", b.balance + amount, o.bn254, o.key));
  }

  lemma DepositIs(c: Crypto, s: State, env: Env, amount: U128, key: Ed25519Key)
    ensures Apply(c, s, Step(env, Deposit(amount, key))) == DepositInto(s, env, amount, key)
  {
  }

  lemma Requests(c: Crypto, o: Operator, supply: U128, size: U64, b: Book, amount: U128)
    requires 0 < amount <= b.balance <= supply && Entry(o) !in b.requests
    requires Entry(o) in b.deposits && amount <= b.deposits[Entry(o)]
    ensures Apply(c, Inactive(o, supply, size, b), Early(o, RequestWithdraw(amount, o.key)))
         == Some(Inactive(o, supply, size, b.(requests := b.requests[Entry(o) := WithdrawRequest(amount, 2)])))
  {
  }

  lemma Withdraws(o: Operator, supply: U128, size: U64, b: Book, amount: nat)
    requires 0 < amount <= b.balance <= supply && b.balance - amount < INIT_MINIMUM_STAKE
    requires Entry(o) in b.deposits && amount <= b.deposits[Entry(o)]
    requires Entry(o) in b.requests && b.requests[Entry(o)].epoch <= 2
    ensures WithdrawFrom(Inactive(o, supply, size, b), Env(640, o.account, o.key, 0), amount, o.key)
         == Some(Inactive(o, supply, size, Book(b.balance - amount, b.pending,
                 b.deposits[Entry(o) := b.deposits[Entry(o)] - amount], b.requests - {Entry(o)})))
  {
    SingleEntry(o.account, supply - b.balance, supply - b.balance + amount);
    SingleEntry(o.account, Node("", b.balance, o.bn254, o.key), Node("", b.balance - amount, o.bn254, o.key));
  }

  lemma WithdrawIs(c: Crypto, s: State, env: Env, amount: U128, key: Ed25519Key)
    ensures Apply(c, s, Step(env, Withdraw(amount, key))) == WithdrawFrom(s, env, amount, key)
  {
  }

  /** A run of the operator's calls on a new contract. */
  ghost predicate IsScenario(c: Crypto, o: Operator, h: History) {
    && IsRun(c, h) && StartsNew(h)
    && forall i :: 0 <= i < |h.steps| ==> h.steps[i].env.signer == o.account && h.steps[i].env.signerKey == o.key
  }

  lemma ScenarioKeys(c: Crypto, o: Operator, h: History, keyOf: KeyOf)
    requires IsScenario(c, o, h) && keyOf(o.account) == o.key
    ensures OneKeyPerAccount(h.steps, keyOf)
  {
  }

  lemma Begins(c: Crypto, o: Operator, supply: U128, size: U64) returns (h: History)
    ensures IsScenario(c, o, h) && h.accepted == [true] && h.steps == [Early(o, Registration(c, o))]
    ensures h.states == [New(o.account, supply, size, 0), Inactive(o, supply, size, Book(0, NO_ENTRIES, map[], map[]))]
  {
    Registers(c, o, supply, size);
    h := Begin(New(o.account, supply, size, 0));
    h := ThenAccepted(c, h, Early(o, Registration(c, o)), Inactive(o, supply, size, Book(0, NO_ENTRIES, map[], map[])));
  }

  /** The run `h'` is `h` with one more accepted call. */
  ghost predicate Extends(h: History, step: Step, s': State, h': History) {
    h' == History(h.states + [s'], h.steps + [step], h.accepted + [true])
  }

  lemma ThenCalls(c: Crypto, o: Operator, h: History, step: Step, s': State) returns (h': History)
    requires IsScenario(c, o, h) && step.env.signer == o.account && step.env.signerKey == o.key
    requires Apply(c, h.states[|h.steps|], step) == Some(s')
    ensures IsScenario(c, o, h') && Extends(h, step, s', h')
  {
    h' := ThenAccepted(c, h, step, s');
  }

  lemma ThenDeposits(c: Crypto, o: Operator, h: History, supply: U128, size: U64, b: Book, amount: U128) returns (h': History)
    requires IsScenario(c, o, h) && b.balance + amount <= supply && h.states[|h.steps|] == Inactive(o, supply, size, b)
    ensures IsScenario(c, o, h')
         && Extends(h, Early(o, Deposit(amount, o.key)), Inactive(o, supply, size, AfterDepositing(o, b, amount)), h')
  {
    Deposits(o, supply, size, b, amount);
    DepositIs(c, Inactive(o, supply, size, b), Env(0, o.account, o.key, 0), amount, o.key);
    h' := ThenCalls(c, o, h, Early(o, Deposit(amount, o.key)), Inactive(o, supply, size, AfterDepositing(o, b, amount)));
  }

  // ----- a repeat deposit

  lemma TwoDeposits(c: Crypto, o: Operator) returns (h: History)
    ensures IsScenario(c, o, h) && h.accepted == [true, true, true] && |h.states| == 4
    ensures h.steps == [Early(o, Registration(c, o)), Early(o, Deposit(1, o.key)), Early(o, Deposit(2, o.key))]
    ensures h.states[1].registry.deposits == map[]
    ensures h.states[2].registry.deposits == map[Entry(o) := 1]
    ensures h.states[3].registry.deposits == map[Entry(o) := 2]
  {
    var b := Book(0, NO_ENTRIES, map[], map[]);
    var b1 := AfterDepositing(o, b, 1);
    h := Begins(c, o, 3, 1);
    h := ThenDeposits(c, o, h, 3, 1, b, 1);
    h := ThenDeposits(c, o, h, 3, 1, b1, 2);
  }

  /** Deposits of one and two tokens: the record shows two, the node holds three. */
  lemma RepeatDepositStrands(c: Crypto, o: Operator) returns (h: History)
    ensures IsScenario(c, o, h) && h.accepted == [true, true, true] && |h.states| == 4
    ensures Stranded(h, 3, o.key) == 1
    ensures Recorded(h.states[3].registry, o.key) == 2 && BalanceAt(h.states[3].registry, o.key) == 3
  {
    h := TwoDeposits(c, o);
    assert Lost(h, 0, o.key) == 0 && Lost(h, 1, o.key) == 0 && Lost(h, 2, o.key) == 1;
    assert Stranded(h, 1, o.key) == Stranded(h, 0, o.key) + Lost(h, 0, o.key);
    assert Stranded(h, 2, o.key) == Stranded(h, 1, o.key) + Lost(h, 1, o.key);
    RecordedUpdate(map[], Entry(o), 2, o.key);
    assert map[][Entry(o) := 2] == map[Entry(o) := 2] && Into(map[], o.key) == map[];
    StrandedBalance(c, o, h, 3);
  }

  lemma StrandedBalance(c: Crypto, o: Operator, h: History, i: nat)
    requires IsScenario(c, o, h) && i <= |h.steps|
    ensures BalanceAt(h.states[i].registry, o.key) == Recorded(h.states[i].registry, o.key) + Stranded(h, i, o.key)
  {
    var keyOf: KeyOf := _ => o.key;
    ScenarioKeys(c, o, h, keyOf);
    NewIsSound(h, keyOf);
    BalanceIsRecordedPlusStranded(c, h, i, keyOf, o.key);
  }

  // ----- a second registration by one account

  lemma OneNodeWellFormed(r: Registry, o: Operator)
    requires r.active == NO_NODES && r.inactive.Keys == {o.account}
    requires r.inactive[o.account].ed25519 == o.key && r.inactive[o.account].bn254 == o.bn254
    requires r.byEd25519 == map[o.key := o.account] && r.byBn254 == map[o.bn254 := o.account]
    ensures WellFormed(r)
  {
    assert r.byEd25519[o.key] == o.account;
    assert Indexed(r, o.account);
  }

  /** One account registers two key pairs; the first is then indexed but leads to the
      node of the second. */
  lemma SecondRegistrationBreaks(c: Crypto, o: Operator, p: Operator) returns (h: History)
    requires p.account == o.account && p.key != o.key && p.bn254 != o.bn254
    ensures IsRun(c, h) && StartsNew(h) && h.accepted == [true, true]
    ensures h.steps == [Early(o, Registration(c, o)), Early(p, Registration(c, p))]
    ensures WellFormed(h.states[1].registry) && !WellFormed(h.states[2].registry)
  {
    h := Begins(c, o, 0, 1);
    var s1 := h.states[1];
    ModIdempotent(p.bn254 * c.point(p.account.ascii), c.order);
    var s2 := Register(c, s1, Env(0, p.account, p.key, 0), "", p.bn254, Sign(c.order, c.point(p.account.ascii), p.bn254));
    h := ThenAccepted(c, h, Early(p, Registration(c, p)), s2.value);
    OneNodeWellFormed(s1.registry, o);
    assert s1.registry.byEd25519[o.key] == p.account;
    RegisterKeepsRegistryExactly(c, s1, Env(0, p.account, p.key, 0), "", p.bn254, Sign(c.order, c.point(p.account.ascii), p.bn254));
  }

  // ----- a stake withdrawn while its node is queued

  const STAKE: U128 := INIT_MINIMUM_STAKE

  function StakedBook(o: Operator): Book {
    Book(STAKE, Queued(o), map[Entry(o) := STAKE], map[])
  }

  function RequestedBook(o: Operator): Book {
    StakedBook(o).(requests := map[Entry(o) := WithdrawRequest(STAKE, 2)])
  }

  function EmptiedBook(o: Operator): Book {
    Book(0, Queued(o), map[Entry(o) := 0], map[])
  }

  lemma StakesOnce(c: Crypto, o: Operator, size: U64) returns (h: History)
    ensures IsScenario(c, o, h) && h.accepted == [true, true] && |h.states| == 3
    ensures h.steps == [Early(o, Registration(c, o)), Early(o, Deposit(STAKE, o.key))]
    ensures h.states[2] == Inactive(o, STAKE, size, StakedBook(o))
  {
    h := Begins(c, o, STAKE, size);
    h := ThenDeposits(c, o, h, STAKE, size, Book(0, NO_ENTRIES, map[], map[]), STAKE);
    assert AfterDepositing(o, Book(0, NO_ENTRIES, map[], map[]), STAKE) == StakedBook(o);
  }

  lemma AsksBack(c: Crypto, o: Operator, size: U64)
    ensures Apply(c, Inactive(o, STAKE, size, StakedBook(o)), Early(o, RequestWithdraw(STAKE, o.key)))
         == Some(Inactive(o, STAKE, size, RequestedBook(o)))
  {
    Requests(c, o, STAKE, size, StakedBook(o), STAKE);
    assert map[][Entry(o) := WithdrawRequest(STAKE, 2)] == map[Entry(o) := WithdrawRequest(STAKE, 2)];
  }

  lemma TakesBack(c: Crypto, o: Operator, size: U64)
    ensures Apply(c, Inactive(o, STAKE, size, RequestedBook(o)), Late(o, Withdraw(STAKE, o.key)))
         == Some(Inactive(o, STAKE, size, EmptiedBook(o)))
  {
    Withdraws(o, STAKE, size, RequestedBook(o), STAKE);
    WithdrawIs(c, Inactive(o, STAKE, size, RequestedBook(o)), Env(640, o.account, o.key, 0), STAKE, o.key);
    assert RequestedBook(o).deposits[Entry(o) := 0] == map[Entry(o) := 0];
    assert RequestedBook(o).requests - {Entry(o)} == map[];
  }

  /** The operator deposits the minimum stake, asks for it back at once, and withdraws it
      when the epoch comes for which the node is queued, before that epoch is processed. */
  lemma EmptiedWhileQueued(c: Crypto, o: Operator, size: U64) returns (h: History)
    ensures IsScenario(c, o, h) && h.accepted == [true, true, true, true] && |h.states| == 5
    ensures h.states[4] == Inactive(o, STAKE, size, EmptiedBook(o))
  {
    h := StakesOnce(c, o, size);
    AsksBack(c, o, size);
    h := ThenCalls(c, o, h, Early(o, RequestWithdraw(STAKE, o.key)), Inactive(o, STAKE, size, RequestedBook(o)));
    TakesBack(c, o, size);
    h := ThenCalls(c, o, h, Late(o, Withdraw(STAKE, o.key)), Inactive(o, STAKE, size, EmptiedBook(o)));
  }

  /** Five accepted calls of one operator leave a pending entry without a node. */
  lemma UnregisterCanOrphan(c: Crypto, o: Operator, keyOf: KeyOf) returns (h: History)
    requires keyOf(o.account) == o.key
    ensures IsScenario(c, o, h) && h.accepted == [true, true, true, true, true]
    ensures Orphan(h.states[5].registry, o.account, 2, keyOf) && !QueueSound(h.states[5].registry)
  {
    h := EmptiedWhileQueued(c, o, 1);
    var s := h.states[4];
    var s' := s.(registry := s.registry.(inactive := map[]));
    assert s.registry.inactive - {o.account} == map[];
    h := ThenCalls(c, o, h, Late(o, UnregisterNode(o.key)), s');
    assert o.account in s'.registry.pending.vals;
  }

  /** The registry once the operator's node has been migrated. */
  function Migrated(o: Operator, r: Registry): Registry
    requires o.account in r.inactive
  {
    r.(active := UnorderedMap([o.account], map[o.account := r.inactive[o.account]]), inactive := map[], pending := NO_ENTRIES)
  }

  lemma Migrates(o: Operator, r: Registry)
    requires r.active == NO_NODES && r.inactive.Keys == {o.account} && r.pending == Queued(o)
    ensures Migrate(r, Due(r.pending.keys, r.pending.vals, 2)) == Some(Migrated(o, r))
  {
    assert Due([o.account], map[o.account := 2], 2) == [o.account];
    assert r.inactive - {o.account} == map[];
    assert Remove(Queued(o), o.account) == NO_ENTRIES;
    assert Activate(r, o.account) == Migrated(o, r);
    assert [o.account][1..] == [];
  }

  lemma EpochIs(c: Crypto, s: State, env: Env, r: Registry, t: Schedule)
    requires env.Epoch() > s.schedule.lastProcessedEpoch
    requires Migrate(s.registry, Due(s.registry.pending.keys, s.registry.pending.vals, env.Epoch())) == Some(r)
    requires Elect(c, s.schedule, s.config, r.active.keys, env.Epoch(), env.gas) == Some(t)
    ensures NextEpoch(c, s, env) == Some(s.(registry := r, schedule := t))
  {
  }

  lemma ProcessEpochIs(c: Crypto, s: State, env: Env)
    ensures Apply(c, s, Step(env, ProcessEpoch)) == NextEpoch(c, s, env)
  {
  }

  /** Five accepted calls of one operator make a node active that holds no stake. */
  lemma QueueOutlivesStake(c: Crypto, o: Operator) returns (h: History)
    ensures IsScenario(c, o, h) && h.accepted == [true, true, true, true, true]
    ensures !FullyStaked(h.states[5])
  {
    h := EmptiedWhileQueued(c, o, 2);
    var s := h.states[4];
    Migrates(o, s.registry);
    var s' := s.(registry := Migrated(o, s.registry));
    EpochIs(c, s, Late(o, ProcessEpoch).env, s'.registry, s.schedule);
    ProcessEpochIs(c, s, Late(o, ProcessEpoch).env);
    h := ThenCalls(c, o, h, Late(o, ProcessEpoch), s');
    assert s'.registry.active.vals[o.account].balance == 0;
  }

  // ----- a batch posted by the leader

  function OperatorOf(id: Identity): Operator {
    Operator(ImplicitAccount(id.ed25519), Ed25519(id.ed25519), id.bn254)
  }

  /** The operator's node is active and the only seat of the committees elected with it. */
  function Seated(o: Operator, accumulator: seq<Request>): State {
    var s := Inactive(o, STAKE, 1, StakedBook(o));
    s.(registry := Migrated(o, s.registry),
       schedule := Schedule(map[2 := [o.account], 3 := [o.account], 4 := [o.account]], false, 2, 0),
       chain := s.chain.(accumulator := accumulator))
  }

  lemma SingleSeat(prn: Stream, a: AccountId)
    ensures CommitteeOf(prn, [a], 1, 0) == Some([a])
  {
    assert prn(0) % 1 == 0;
    assert SelectFrom(prn, 1, 1, [0], 0, 0) == Some([0]);
    assert [] + [0] == [0];
    assert SelectIndices(prn, 1, 1, 0) == Some([0]);
    assert Committee.Seats([a], [0]) == [a];
  }

  lemma Elects(c: Crypto, o: Operator)
    ensures var t := New(o.account, STAKE, 1, 0).schedule;
            Elect(c, t, New(o.account, STAKE, 1, 0).config, [o.account], 2, 0) == Some(Seated(o, []).schedule)
  {
    SingleSeat(PrnStream(c.sha, 0), o.account);
    assert map[][2 := [o.account]][2 + 1 := [o.account]][2 + 2 := [o.account]]
        == map[2 := [o.account], 3 := [o.account], 4 := [o.account]];
  }

  lemma MigratesThenElects(c: Crypto, o: Operator, s: State, env: Env, t: Schedule)
    requires s.registry.active == NO_NODES && s.registry.inactive.Keys == {o.account} && s.registry.pending == Queued(o)
    requires env.Epoch() == 2 && s.schedule.lastProcessedEpoch == 0
    requires Elect(c, s.schedule, s.config, [o.account], 2, env.gas) == Some(t)
    ensures NextEpoch(c, s, env) == Some(s.(registry := Migrated(o, s.registry), schedule := t))
  {
    Migrates(o, s.registry);
    EpochIs(c, s, env, Migrated(o, s.registry), t);
  }

  lemma TakesSeat(c: Crypto, o: Operator)
    ensures NextEpoch(c, Inactive(o, STAKE, 1, StakedBook(o)), Late(o, ProcessEpoch).env) == Some(Seated(o, []))
  {
    Elects(c, o);
    MigratesThenElects(c, o, Inactive(o, STAKE, 1, StakedBook(o)), Late(o, ProcessEpoch).env, Seated(o, []).schedule);
  }

  lemma PostsRequest(c: Crypto, o: Operator, request: Request)
    ensures Apply(c, Seated(o, []), Late(o, PostDataRequest(request))) == Some(Seated(o, [request]))
  {
    assert [] + [request] == [request];
  }

  lemma SeatedRun(c: Crypto, o: Operator) returns (h: History)
    ensures IsScenario(c, o, h) && h.accepted == [true, true, true] && |h.states| == 4 && h.states[3] == Seated(o, [])
    ensures h.steps == [Early(o, Registration(c, o)), Early(o, Deposit(STAKE, o.key)), Late(o, ProcessEpoch)]
  {
    h := StakesOnce(c, o, 1);
    TakesSeat(c, o);
    ProcessEpochIs(c, h.states[2], Late(o, ProcessEpoch).env);
    h := ThenCalls(c, o, h, Late(o, ProcessEpoch), Seated(o, []));
  }

  /** The operator stakes, takes the only seat, and posts a request. */
  lemma SeatedWithRequest(c: Crypto, o: Operator, request: Request) returns (h: History)
    ensures IsScenario(c, o, h) && h.accepted == [true, true, true, true] && |h.states| == 5
    ensures h.states[3] == Seated(o, []) && h.states[4] == Seated(o, [request])
    ensures forall i :: 0 <= i < 4 ==> !h.steps[i].call.PostSignedBatch?
  {
    h := SeatedRun(c, o);
    PostsRequest(c, o, request);
    h := ThenCalls(c, o, h, Late(o, PostDataRequest(request)), Seated(o, [request]));
  }

  /** What the contract tells the operator's node about the current batch. */
  function CurrentView(c: Crypto, id: Identity, s: State): BatchView {
    BatchView(RootBytes(c, s), 64, Some(ImplicitAccount(id.ed25519)), 1, 0)
  }

  lemma SeatedIsReady(c: Crypto, id: Identity, request: Request, root: Bytes)
    ensures var o := OperatorOf(id);
            var s, env := Seated(o, [request]), Env(640, o.account, o.key, 0);
            && NextEpoch(c, s, env) == Some(s) && LeaderReady(c, s, env, id, CurrentView(c, id, s))
            && Registered(s, env, [OwnMessage(c, id, root)])
  {
  }

  /** A job after which the node's store is for the given root: its own signature alone. */
  lemma SignsRoot(c: Crypto, id: Identity, view: BatchView) returns (tasks: seq<Task>)
    ensures |tasks| == 1 && Entries(c, id, tasks, 1) == [OwnMessage(c, id, view.root)]
    ensures Load(SharedAt(c, id, tasks, 1)).header == view.root && |Load(SharedAt(c, id, tasks, 1)).signatures| == 1
  {
    OwnMessageVerifies(c, id, view.root);
    if view.root == EMPTY_SHA256 {
      tasks := [P2P(OwnMessage(c, id, view.root))];
      assert Includes(c, None, OwnMessage(c, id, view.root));
      assert [] + [OwnMessage(c, id, view.root)] == [OwnMessage(c, id, view.root)];
    } else {
      tasks := [Task.Batch(view)];
    }
    assert SharedAt(c, id, tasks, 0) == None && Entries(c, id, tasks, 0) == [];
  }

  /** The contract call that the leader's node makes. */
  function PostCall(post: Post): Call
    requires post.aggregateSignature.Some? && post.aggregateKey.Some?
  {
    PostSignedBatch(post.aggregateSignature.value, post.aggregateKey.value, post.signers, post.leaderSignature)
  }

  lemma PostCallIs(c: Crypto, s: State, env: Env, post: Post)
    requires post.aggregateSignature.Some? && post.aggregateKey.Some?
    ensures Apply(c, s, Step(env, PostCall(post)))
         == PostBatch(c, s, env, post.aggregateSignature.value, post.aggregateKey.value, post.signers, post.leaderSignature)
  {
    Leadership.SignedBatchIs(c, s, env, post.aggregateSignature.value, post.aggregateKey.value, post.signers, post.leaderSignature);
  }

  lemma SeatedPostAccepted(c: Crypto, id: Identity, request: Request) returns (tasks: seq<Task>, post: Post, s': State)
    ensures |tasks| == 1 && post.aggregateSignature.Some? && post.aggregateKey.Some?
    ensures LeaderPost(c, id, SharedAt(c, id, tasks, 1), CurrentView(c, id, Seated(OperatorOf(id), [request]))) == Some(post)
    ensures Apply(c, Seated(OperatorOf(id), [request]), Late(OperatorOf(id), PostCall(post))) == Some(s')
    ensures var root := RootBytes(c, Seated(OperatorOf(id), [request]));
            Entries(c, id, tasks, 1) == [OwnMessage(c, id, root)] && Load(SharedAt(c, id, tasks, 1)).header == root
  {
    var o := OperatorOf(id);
    var s, env := Seated(o, [request]), Env(640, o.account, o.key, 0);
    var view := CurrentView(c, id, s);
    SeatedIsReady(c, id, request, view.root);
    tasks := SignsRoot(c, id, view);
    post := LeaderPost(c, id, SharedAt(c, id, tasks, 1), view).value;
    LeaderPostAccepted(c, s, s, env, id, tasks, 1, view);
    PostCallIs(c, s, env, post);
    s' := PostBatch(c, s, env, post.aggregateSignature.value, post.aggregateKey.value, post.signers, post.leaderSignature).value;
  }

  /** For every node and every request there is a run of a new contract, all of its calls
      accepted, whose last call is the node's own post of a batch with that request. */
  lemma LeaderPostHappens(c: Crypto, id: Identity, request: Request) returns (h: History, tasks: seq<Task>, post: Post)
    ensures IsScenario(c, OperatorOf(id), h) && h.accepted == [true, true, true, true, true] && |h.states| == 6
    ensures |tasks| == 1 && LeaderPost(c, id, SharedAt(c, id, tasks, 1), CurrentView(c, id, h.states[4])) == Some(post)
    ensures post.aggregateSignature.Some? && post.aggregateKey.Some? && h.steps[4].call == PostCall(post)
    ensures BatchChain.Batches(h, 5) == [[request]]
  {
    var o := OperatorOf(id);
    h := SeatedWithRequest(c, o, request);
    var s';
    tasks, post, s' := SeatedPostAccepted(c, id, request);
    h := ThenCalls(c, o, h, Late(o, PostCall(post)), s');
    NoBatchYet(h, 4);
    assert BatchChain.IsPost(h, 4);
  }

  lemma {:induction false} NoBatchYet(h: History, n: nat)
    requires n <= |h.steps| == |h.accepted| && |h.states| == |h.steps| + 1
    requires forall i :: 0 <= i < n ==> !BatchChain.IsPost(h, i)
    ensures BatchChain.Batches(h, n) == []
  {
    if n > 0 { NoBatchYet(h, n - 1); }
  }

  // ----- a minimum raised above a stake

  /** The DAO raises the minimum stake above what the only active node holds. */
  lemma RaisedMinimumUnderstakes(c: Crypto, o: Operator) returns (h: History)
    ensures IsScenario(c, o, h) && h.accepted == [true, true, true, true] && |h.states| == 5
    ensures FullyStaked(h.states[3]) && !FullyStaked(h.states[4])
  {
    h := SeatedRun(c, o);
    var s := h.states[3];
    var raised: U128 := STAKE + 1;
    var s' := s.(config := s.config.(minimumStake := raised));
    ConfigIs(c, s, Late(o, Call.UpdateConfig(UpdateConfig.MinimumStake, raised)).env, raised);
    h := ThenCalls(c, o, h, Late(o, Call.UpdateConfig(UpdateConfig.MinimumStake, raised)), s');
    assert s'.registry.active.vals[o.account].balance == STAKE;
  }

  lemma ConfigIs(c: Crypto, s: State, env: Env, value: U128)
    requires env.signer == s.dao
    ensures Apply(c, s, Step(env, Call.UpdateConfig(UpdateConfig.MinimumStake, value)))
         == Some(s.(config := s.config.(minimumStake := value)))
  {
  }

  // ----- a batch posted too soon

  lemma FirstStore(c: Crypto, id: Identity, view: BatchView)
    requires view.root != EMPTY_SHA256
    ensures SharedAt(c, id, [Task.Batch(view)], 1) == Some(FreshStore(c, id, view))
    ensures Entries(c, id, [Task.Batch(view)], 1) == [OwnMessage(c, id, view.root)]
    ensures |FreshStore(c, id, view).signatures| == 1 && FreshStore(c, id, view).header == view.root
    ensures FreshStore(c, id, view).aggregateKey == Some(id.bn254)
  {
    assert SharedAt(c, id, [Task.Batch(view)], 0) == None;
  }

  lemma EmptyRoot(c: Crypto, id: Identity, s: State)
    requires s.chain.accumulator == []
    ensures CurrentView(c, id, s).root == ZERO_HASH.bytes && ZERO_HASH.bytes != EMPTY_SHA256
  {
    assert ZERO_HASH.bytes[0] == 0 && EMPTY_SHA256[0] == 227;
  }

  lemma RefusedRun(c: Crypto, o: Operator, request: Request, call: Call) returns (h: History)
    requires Apply(c, Seated(o, [request]), Late(o, call)) == None
    ensures IsScenario(c, o, h) && h.accepted == [true, true, true, true, false] && |h.states| == 6
    ensures h.states[3] == Seated(o, []) && h.states[4] == Seated(o, [request]) && h.steps[4].call == call
  {
    h := SeatedWithRequest(c, o, request);
    h := ThenRefused(c, h, Late(o, call));
  }

  /** The group has prime order, the key is not zero, and the root of the request is told
      from the root of the empty batch. */
  ghost predicate TellsApart(c: Crypto, id: Identity, request: Request) {
    var root := RootBytes(c, Seated(OperatorOf(id), [request]));
    Prime(c.order) && id.bn254 % c.order != 0 && root != ZERO_HASH.bytes && Separates(c, root, ZERO_HASH.bytes)
  }

  lemma StalePost(c: Crypto, id: Identity, request: Request, view0: BatchView) returns (post: Post)
    requires TellsApart(c, id, request) && view0 == CurrentView(c, id, Seated(OperatorOf(id), []))
    ensures var s := Seated(OperatorOf(id), [request]);
            LeaderPost(c, id, SharedAt(c, id, [Task.Batch(view0)], 1), CurrentView(c, id, s)) == Some(post)
    ensures post.aggregateSignature.Some? && post.aggregateKey.Some?
    ensures var o := OperatorOf(id);
            !Passes(c, Seated(o, [request]), Env(640, o.account, o.key, 0), post)
  {
    var o, tasks := OperatorOf(id), [Task.Batch(view0)];
    var s, env := Seated(o, [request]), Env(640, o.account, o.key, 0);
    EmptyRoot(c, id, Seated(o, []));
    FirstStore(c, id, view0);
    SeatedIsReady(c, id, request, view0.root);
    post := LeaderPost(c, id, SharedAt(c, id, tasks, 1), CurrentView(c, id, s)).value;
    LeaderPostAcceptedExactly(c, s, env, id, tasks, 1, CurrentView(c, id, s));
  }

  lemma StaleRefused(c: Crypto, id: Identity, request: Request, post: Post)
    requires post.aggregateSignature.Some? && post.aggregateKey.Some?
    requires var o := OperatorOf(id); !Passes(c, Seated(o, [request]), Env(640, o.account, o.key, 0), post)
    ensures Apply(c, Seated(OperatorOf(id), [request]), Late(OperatorOf(id), PostCall(post))) == None
  {
    var o := OperatorOf(id);
    SeatedIsReady(c, id, request, []);
    PostCallIs(c, Seated(o, [request]), Env(640, o.account, o.key, 0), post);
    NotPassing(c, Seated(o, [request]), Env(640, o.account, o.key, 0), post);
  }

  lemma NotPassing(c: Crypto, s: State, env: Env, post: Post)
    requires post.aggregateSignature.Some? && post.aggregateKey.Some?
    requires NextEpoch(c, s, env) == Some(s) && !Passes(c, s, env, post)
    ensures PostBatch(c, s, env, post.aggregateSignature.value, post.aggregateKey.value, post.signers, post.leaderSignature) == None
  {
  }

  /** The node signs the empty batch, a request is posted, and the node, asked again as
      leader, posts what it had signed: the contract refuses. */
  lemma StalePostRefused(c: Crypto, id: Identity, request: Request) returns (h: History, tasks: seq<Task>, post: Post)
    requires TellsApart(c, id, request)
    ensures IsScenario(c, OperatorOf(id), h) && h.accepted == [true, true, true, true, false] && |h.states| == 6
    ensures tasks == [Task.Batch(CurrentView(c, id, h.states[3]))]
    ensures LeaderPost(c, id, SharedAt(c, id, tasks, 1), CurrentView(c, id, h.states[4])) == Some(post)
    ensures post.aggregateSignature.Some? && post.aggregateKey.Some? && h.steps[4].call == PostCall(post)
  {
    post := StalePost(c, id, request, CurrentView(c, id, Seated(OperatorOf(id), [])));
    StaleRefused(c, id, request, post);
    h := RefusedRun(c, OperatorOf(id), request, PostCall(post));
    tasks := [Task.Batch(CurrentView(c, id, h.states[3]))];
  }

  const OTHER_HASH: CryptoHash := Hash([1] + ZeroBytes(31))

  /** A hash that is never zero, and a hash-to-curve that tells zero from everything else. */
  const TOY: Crypto := Crypto(_ => OTHER_HASH, x => if x == ZERO_HASH.bytes then 1 else 0, _ => [], 2)

  /** There is such a scheme. */
  lemma ToyTellsApart(ed25519: Bytes, request: Request)
    ensures TellsApart(TOY, Identity(ed25519, 1), request)
  {
    Merkle.SingleRoot(TOY.sha, request);
    assert OTHER_HASH.bytes[0] == 1 && ZERO_HASH.bytes[0] == 0;
  }

  // ----- a signature from outside the committee

  /** A valid signature on the root by someone else. */
  function OutsideMessage(c: Crypto, root: Bytes, key: Element, ed25519: Bytes): BatchMessage {
    BatchMessage(root, key, Sign(c.order, c.point(root), key), ed25519)
  }

  lemma SecondEntry(c: Crypto, id: Identity, tasks: seq<Task>, m: BatchMessage)
    requires |tasks| == 1 && |Load(SharedAt(c, id, tasks, 1)).signatures| == 1 && Includes(c, SharedAt(c, id, tasks, 1), m)
    ensures |Load(SharedAt(c, id, tasks + [P2P(m)], 2)).signatures| == 2
  {
    var more := tasks + [P2P(m)];
    assert SharedAt(c, id, more, 0) == SharedAt(c, id, tasks, 0) && more[0] == tasks[0];
    assert SharedAt(c, id, more, 1) == SharedAt(c, id, tasks, 1);
  }

  /** The leader's node holds a post that the contract accepts.  One message by a key that
      nobody registered, and it has nothing to post. */
  lemma OutsiderStopsPost(c: Crypto, id: Identity, request: Request, key: Element, ed25519: Bytes)
    returns (tasks: seq<Task>, post: Post, s': State)
    requires key != id.bn254
    ensures var s := Seated(OperatorOf(id), [request]);
            var m := OutsideMessage(c, RootBytes(c, s), key, ed25519);
            && |tasks| == 1 && LeaderPost(c, id, SharedAt(c, id, tasks, 1), CurrentView(c, id, s)) == Some(post)
            && post.aggregateSignature.Some? && post.aggregateKey.Some?
            && Apply(c, s, Late(OperatorOf(id), PostCall(post))) == Some(s')
            && key !in s.registry.byBn254
            && LeaderPost(c, id, SharedAt(c, id, tasks + [P2P(m)], 2), CurrentView(c, id, s)) == None
  {
    var s := Seated(OperatorOf(id), [request]);
    var root := RootBytes(c, s);
    tasks, post, s' := SeatedPostAccepted(c, id, request);
    SignedOnce(c, id, tasks, key);
    ModIdempotent(key * c.point(root), c.order);
    SecondEntry(c, id, tasks, OutsideMessage(c, root, key, ed25519));
  }

  lemma SignedOnce(c: Crypto, id: Identity, tasks: seq<Task>, key: Element)
    requires |tasks| == 1 && Entries(c, id, tasks, 1) == [OwnMessage(c, id, Load(SharedAt(c, id, tasks, 1)).header)] && key != id.bn254
    ensures key !in Load(SharedAt(c, id, tasks, 1)).signatures && |Load(SharedAt(c, id, tasks, 1)).signatures| == 1
  {
    StoreAggregates(c, id, tasks, 1);
    AsManySigners(c, Load(SharedAt(c, id, tasks, 1)), Entries(c, id, tasks, 1));
  }
}
