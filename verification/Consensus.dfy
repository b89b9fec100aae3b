/** wasm/consensus: each node gathers bn254 signatures on the current batch from gossip,
    adding them up as they arrive; the slot leader posts the sums to the contract. */
module Consensus {
  import opened Bytes
  import opened Collections
  import opened Bn254
  import opened Committee
  import opened Mainchain

  // ----- wasm/consensus/src/types/batch_signature.rs

  const EMPTY_SHA256: Bytes := [
    227, 176, 196, 66, 152, 252, 28, 20, 154, 251, 244, 200, 153, 111, 185, 36,
    39, 174, 65, 228, 100, 155, 147, 76, 164, 149, 153, 27, 120, 82, 184, 85]

  /** One node's signature on a batch header, as gossiped. */
  datatype BatchMessage = BatchMessage(header: Bytes, key: Element, signature: Element, ed25519: Bytes)

  /** The bytes that a node broadcasts; a store that was never filled holds none. */
  datatype Payload = NoBytes | Encoded(message: BatchMessage)

  datatype Store = Store(
    aggregateSignature: Option<Element>,
    aggregateKey: Option<Element>,
    signers: seq<AccountId>,
    signatures: map<Element, Element>,
    slot: nat,
    header: Bytes,
    payload: Payload)

  function NewStore(slot: nat, root: Bytes): Store {
    Store(None, None, [], map[], slot, root, NoBytes)
  }

  /** `get_or_create_batch_signature_store`. */
  function Load(shared: Option<Store>): Store {
    if shared.Some? then shared.value else NewStore(0, EMPTY_SHA256)
  }

  /** `add_signature` and `add_public_key`: an empty aggregate is replaced. */
  function AddTo(r: Order, aggregate: Option<Element>, x: Element): Element {
    if aggregate.None? then x else Add(r, aggregate.value, x)
  }

  function HexDigit(n: nat): Byte
    requires n < 16
  {
    if n < 10 then 48 + n else 87 + n
  }

  function Hex(b: Bytes): Bytes {
    if b == [] then [] else [HexDigit(b[0] / 16), HexDigit(b[0] % 16)] + Hex(b[1..])
  }

  /** The account that NEAR derives from an ed25519 key. */
  function ImplicitAccount(ed25519: Bytes): AccountId {
    AccountId(Hex(ed25519))
  }

  // ----- wasm/consensus/src/tasks/p2p.rs

  function Include(r: Order, st: Store, m: BatchMessage): Store {
    st.(aggregateSignature := Some(AddTo(r, st.aggregateSignature, m.signature)),
        aggregateKey := Some(AddTo(r, st.aggregateKey, m.key)),
        signers := st.signers + [ImplicitAccount(m.ed25519)],
        signatures := st.signatures[m.key := m.signature])
  }

  /** A message is added when it verifies, is for the batch at hand, and its key is new. */
  predicate Includes(c: Crypto, shared: Option<Store>, m: BatchMessage) {
    Verify(c.order, c.point(m.header), m.signature, m.key) && m.header == Load(shared).header && m.key !in Load(shared).signatures
  }

  function Gossip(c: Crypto, shared: Option<Store>, m: BatchMessage): Option<Store> {
    if Includes(c, shared, m) then Some(Include(c.order, Load(shared), m)) else shared
  }

  // ----- wasm/consensus/src/tasks/batch.rs

  /** The keys of one node. */
  datatype Identity = Identity(ed25519: Bytes, bn254: Element)

  /** What the contract returned to the views that a batch job asks for first. */
  datatype BatchView = BatchView(root: Bytes, slot: nat, leader: Option<AccountId>, committeeSize: nat, random: nat)

  function OwnMessage(c: Crypto, id: Identity, root: Bytes): BatchMessage {
    BatchMessage(root, id.bn254, Sign(c.order, c.point(root), id.bn254), id.ed25519)
  }

  function FreshStore(c: Crypto, id: Identity, view: BatchView): Store {
    Include(c.order, NewStore(view.slot, view.root), OwnMessage(c, id, view.root)).(payload := Encoded(OwnMessage(c, id, view.root)))
  }

  /** `process_batch`: the shared store afterwards and what is broadcast. */
  function ProcessBatch(c: Crypto, id: Identity, shared: Option<Store>, view: BatchView): (Option<Store>, Option<Payload>) {
    var st := Load(shared);
    if view.root == st.header && view.slot == st.slot then (shared, None)
    else if view.root == st.header then (Some(st.(slot := view.slot)), Some(st.payload))
    else (Some(FreshStore(c, id, view)), Some(Encoded(OwnMessage(c, id, view.root))))
  }

  /** A call of `post_signed_batch`. */
  datatype Post = Post(aggregateSignature: Option<Element>, aggregateKey: Option<Element>, signers: seq<AccountId>, leaderSignature: Element)

  /** `process_slot_leader`.  The new store of a new batch is a local of `process_batch`, so
      the leader step that follows works on the store as it was loaded. */
  function LeaderPost(c: Crypto, id: Identity, shared: Option<Store>, view: BatchView): Option<Post> {
    var st := Load(shared);
    if view.leader == Some(ImplicitAccount(id.ed25519)) && view.committeeSize == |st.signatures|
    then Some(Post(st.aggregateSignature, st.aggregateKey, st.signers, Sign(c.order, c.point(LittleEndian(view.random, 32)), id.bn254)))
    else None
  }

  // ----- the node's shared memory as an object

  class ConsensusNode {
    const crypto: Crypto
    const id: Identity
    var shared: Option<Store>

    constructor (crypto: Crypto, id: Identity)
      ensures shared == None && this.crypto == crypto && this.id == id
    {
      this.crypto, this.id, shared := crypto, id, None;
    }

    /** The p2p task.  `added` tells whether the message went into the store. */
    method HandleP2P(m: BatchMessage) returns (added: bool)
      modifies this
      ensures shared == Gossip(crypto, old(shared), m) && added == Includes(crypto, old(shared), m)
    {
      if !Verify(crypto.order, crypto.point(m.header), m.signature, m.key) { return false; }
      var store := Load(shared);
      if m.header != store.header || m.key in store.signatures { return false; }
      var newSignature := AddTo(crypto.order, store.aggregateSignature, m.signature);
      var newKey := AddTo(crypto.order, store.aggregateKey, m.key);
      store := store.(aggregateSignature := Some(newSignature), aggregateKey := Some(newKey));
      store := store.(signers := store.signers + [ImplicitAccount(m.ed25519)]);
      store := store.(signatures := store.signatures[m.key := m.signature]);
      shared := Some(store);
      return true;
    }

    /** The second step of the batch task. */
    method BatchStep1(view: BatchView) returns (broadcast: Option<Payload>, post: Option<Post>)
      modifies this
      ensures (shared, broadcast) == ProcessBatch(crypto, id, old(shared), view)
      ensures post == LeaderPost(crypto, id, old(shared), view)
    {
      var store := Load(shared);
      broadcast, post := None, None;
      if view.root == store.header {
        if view.slot != store.slot {
          store := store.(slot := view.slot);
          shared := Some(store);
          broadcast := Some(store.payload);
        }
      } else {
        var signature := Sign(crypto.order, crypto.point(view.root), id.bn254);
        var created := NewStore(view.slot, view.root);
        created := created.(aggregateSignature := Some(AddTo(crypto.order, created.aggregateSignature, signature)));
        created := created.(aggregateKey := Some(AddTo(crypto.order, created.aggregateKey, id.bn254)));
        created := created.(signers := created.signers + [ImplicitAccount(id.ed25519)]);
        created := created.(signatures := created.signatures[id.bn254 := signature]);
        var message := BatchMessage(view.root, id.bn254, signature, id.ed25519);
        created := created.(payload := Encoded(message));
        shared := Some(created);
        broadcast := Some(created.payload);
      }
      if view.leader == Some(ImplicitAccount(id.ed25519)) && view.committeeSize == |store.signatures| {
        post := Some(Post(store.aggregateSignature, store.aggregateKey, store.signers,
                          Sign(crypto.order, crypto.point(LittleEndian(view.random, 32)), id.bn254)));
      }
    }
  }

  // ----- runs of tasks on one node

  datatype Task = P2P(message: BatchMessage) | Batch(view: BatchView)

  function AfterTask(c: Crypto, id: Identity, shared: Option<Store>, task: Task): Option<Store> {
    match task
    case P2P(m) => Gossip(c, shared, m)
    case Batch(view) => ProcessBatch(c, id, shared, view).0
  }

  /** The store after the first `i` tasks. */
  function SharedAt(c: Crypto, id: Identity, tasks: seq<Task>, i: nat): Option<Store>
    requires i <= |tasks|
  {
    if i == 0 then None else AfterTask(c, id, SharedAt(c, id, tasks, i - 1), tasks[i - 1])
  }

  /** The messages that the store stands for: those added since it was last replaced. */
  ghost function Entries(c: Crypto, id: Identity, tasks: seq<Task>, i: nat): seq<BatchMessage>
    requires i <= |tasks|
  {
    if i == 0 then [] else EntriesAfter(c, id, SharedAt(c, id, tasks, i - 1), Entries(c, id, tasks, i - 1), tasks[i - 1])
  }

  ghost function EntriesAfter(c: Crypto, id: Identity, shared: Option<Store>, es: seq<BatchMessage>, task: Task): seq<BatchMessage> {
    match task
    case P2P(m) => if Includes(c, shared, m) then es + [m] else es
    case Batch(view) => if view.root == Load(shared).header then es else [OwnMessage(c, id, view.root)]
  }

  ghost function Keys(es: seq<BatchMessage>): seq<Element> {
    Map((m: BatchMessage) => m.key, es)
  }

  ghost function Signatures(es: seq<BatchMessage>): seq<Element> {
    Map((m: BatchMessage) => m.signature, es)
  }

  ghost function Accounts(es: seq<BatchMessage>): seq<AccountId> {
    Map((m: BatchMessage) => ImplicitAccount(m.ed25519), es)
  }

  /** The store's aggregates are the sums over its entries. */
  ghost predicate Sums(r: Order, st: Store, es: seq<BatchMessage>) {
    && st.signers == Accounts(es)
    && st.aggregateKey == (if es == [] then None else Some(Sum(r, Keys(es))))
    && st.aggregateSignature == (if es == [] then None else Some(Sum(r, Signatures(es))))
  }

  /** The entries are exactly the signatures by distinct keys, each valid for the header. */
  ghost predicate Signed(c: Crypto, st: Store, es: seq<BatchMessage>) {
    && NoDup(Keys(es))
    && (forall k :: k in st.signatures <==> k in Keys(es))
    && (forall i :: 0 <= i < |es| ==> st.signatures[es[i].key] == es[i].signature)
    && (forall i :: 0 <= i < |es| ==> Verify(c.order, c.point(st.header), es[i].signature, es[i].key))
  }

  lemma EntriesAppend(es: seq<BatchMessage>, m: BatchMessage)
    ensures Keys(es + [m]) == Keys(es) + [m.key] && Signatures(es + [m]) == Signatures(es) + [m.signature]
    ensures Accounts(es + [m]) == Accounts(es) + [ImplicitAccount(m.ed25519)]
  {
  }

  lemma IncludeSums(r: Order, st: Store, es: seq<BatchMessage>, m: BatchMessage)
    requires Sums(r, st, es)
    ensures Sums(r, Include(r, st, m), es + [m])
  {
    EntriesAppend(es, m);
    SumAppend(r, Keys(es), m.key);
    SumAppend(r, Signatures(es), m.signature);
  }

  lemma IncludeSigned(c: Crypto, st: Store, es: seq<BatchMessage>, m: BatchMessage)
    requires Signed(c, st, es) && m.key !in st.signatures && Verify(c.order, c.point(st.header), m.signature, m.key)
    ensures Signed(c, Include(c.order, st, m), es + [m])
  {
    var es', st' := es + [m], Include(c.order, st, m);
    assert Keys(es') == Keys(es) + [m.key];
    forall i | 0 <= i < |es'| ensures st'.signatures[es'[i].key] == es'[i].signature {
      if i < |es| { assert Keys(es)[i] == es[i].key; }
    }
  }

  lemma OwnMessageVerifies(c: Crypto, id: Identity, root: Bytes)
    ensures Verify(c.order, c.point(root), OwnMessage(c, id, root).signature, id.bn254)
  {
    ModIdempotent(id.bn254 * c.point(root), c.order);
  }

  lemma FreshStoreSums(c: Crypto, id: Identity, view: BatchView)
    ensures Sums(c.order, FreshStore(c, id, view), [OwnMessage(c, id, view.root)])
    ensures Signed(c, FreshStore(c, id, view), [OwnMessage(c, id, view.root)])
  {
    var m, empty := OwnMessage(c, id, view.root), NewStore(view.slot, view.root);
    OwnMessageVerifies(c, id, view.root);
    IncludeSums(c.order, empty, [], m);
    IncludeSigned(c, empty, [], m);
    assert [] + [m] == [m];
  }

  lemma TaskKeepsSums(c: Crypto, id: Identity, shared: Option<Store>, es: seq<BatchMessage>, task: Task)
    requires Sums(c.order, Load(shared), es) && Signed(c, Load(shared), es)
    ensures Sums(c.order, Load(AfterTask(c, id, shared, task)), EntriesAfter(c, id, shared, es, task))
    ensures Signed(c, Load(AfterTask(c, id, shared, task)), EntriesAfter(c, id, shared, es, task))
  {
    match task
    case P2P(m) =>
      if Includes(c, shared, m) {
        IncludeSums(c.order, Load(shared), es, m);
        IncludeSigned(c, Load(shared), es, m);
      }
    case Batch(view) => FreshStoreSums(c, id, view);
  }

  /** Over every run of tasks the store's aggregates are the sums over its entries, whose
      keys are exactly the distinct keys that signed. */
  lemma {:induction false} StoreAggregates(c: Crypto, id: Identity, tasks: seq<Task>, i: nat)
    requires i <= |tasks|
    ensures Sums(c.order, Load(SharedAt(c, id, tasks, i)), Entries(c, id, tasks, i))
    ensures Signed(c, Load(SharedAt(c, id, tasks, i)), Entries(c, id, tasks, i))
  {
    if i > 0 {
      StoreAggregates(c, id, tasks, i - 1);
      TaskKeepsSums(c, id, SharedAt(c, id, tasks, i - 1), Entries(c, id, tasks, i - 1), tasks[i - 1]);
    }
  }

  /** There are as many signers as signatures. */
  lemma AsManySigners(c: Crypto, st: Store, es: seq<BatchMessage>)
    requires Sums(c.order, st, es) && Signed(c, st, es)
    ensures |st.signers| == |st.signatures| == |es|
  {
    NoDupCardinality(Keys(es));
    assert Elems(Keys(es)) == st.signatures.Keys;
  }

  /** The aggregate verifies against the store's header. */
  lemma AggregateVerifies(c: Crypto, st: Store, es: seq<BatchMessage>)
    requires Sums(c.order, st, es) && Signed(c, st, es) && es != []
    ensures Verify(c.order, c.point(st.header), st.aggregateSignature.value, st.aggregateKey.value)
  {
    SumVerifies(c.order, c.point(st.header), Signatures(es), Keys(es));
  }

  // ----- what a node broadcasts and posts

  /** The account name is the key in lower-case hexadecimal digits, the high half first. */
  lemma {:induction false} HexDigits(b: Bytes, i: nat)
    requires i < |b|
    ensures |Hex(b)| == 2 * |b|
    ensures Hex(b)[2 * i] == "0123456789abcdef"[b[i] / 16] as int && Hex(b)[2 * i + 1] == "0123456789abcdef"[b[i] % 16] as int
  {
    HexPair(b[0]);
    HexLength(b);
    if i > 0 {
      HexDigits(b[1..], i - 1);
      assert Hex(b)[2 * i] == Hex(b[1..])[2 * (i - 1)] && Hex(b)[2 * i + 1] == Hex(b[1..])[2 * (i - 1) + 1];
    }
  }

  lemma HexPair(x: Byte)
    ensures HexDigit(x / 16) == "0123456789abcdef"[x / 16] as int && HexDigit(x % 16) == "0123456789abcdef"[x % 16] as int
  {
    OneDigit(x / 16);
    OneDigit(x % 16);
  }

  lemma OneDigit(n: nat)
    requires n < 16
    ensures HexDigit(n) == "0123456789abcdef"[n] as int
  {
  }

  lemma {:induction false} HexLength(b: Bytes)
    ensures |Hex(b)| == 2 * |b|
  {
    if b != [] { HexLength(b[1..]); }
  }

  /** The root and the slot that the last batch job was given, those of a fresh node at first. */
  ghost function LastRoot(tasks: seq<Task>, i: nat): Bytes
    requires i <= |tasks|
  {
    if i == 0 then EMPTY_SHA256 else if tasks[i - 1].Batch? then tasks[i - 1].view.root else LastRoot(tasks, i - 1)
  }

  ghost function LastSlot(tasks: seq<Task>, i: nat): nat
    requires i <= |tasks|
  {
    if i == 0 then 0 else if tasks[i - 1].Batch? then tasks[i - 1].view.slot else LastSlot(tasks, i - 1)
  }

  /** A batch job has been given a root other than that of a fresh node. */
  ghost predicate HasSigned(tasks: seq<Task>, i: nat)
    requires i <= |tasks|
  {
    exists k :: 0 <= k < i && tasks[k].Batch? && tasks[k].view.root != EMPTY_SHA256
  }

  /** Over every run of jobs the store is for the root and slot of the last batch job, and
      holds the node's own message for that root once it has signed one. */
  lemma {:induction false} StoreFollowsJobs(c: Crypto, id: Identity, tasks: seq<Task>, i: nat)
    requires i <= |tasks|
    ensures var st := Load(SharedAt(c, id, tasks, i));
            && st.header == LastRoot(tasks, i) && st.slot == LastSlot(tasks, i)
            && st.payload == if HasSigned(tasks, i) then Encoded(OwnMessage(c, id, LastRoot(tasks, i))) else NoBytes
  {
    if i > 0 {
      StoreFollowsJobs(c, id, tasks, i - 1);
      NeverSigned(tasks, i - 1);
      if HasSigned(tasks, i - 1) {
        var k :| 0 <= k < i - 1 && tasks[k].Batch? && tasks[k].view.root != EMPTY_SHA256;
        assert HasSigned(tasks, i);
      }
      if tasks[i - 1].Batch? && tasks[i - 1].view.root != EMPTY_SHA256 { assert HasSigned(tasks, i); }
    }
  }

  lemma {:induction false} NeverSigned(tasks: seq<Task>, i: nat)
    requires i <= |tasks|
    ensures !HasSigned(tasks, i) ==> LastRoot(tasks, i) == EMPTY_SHA256
  {
    if i > 0 {
      NeverSigned(tasks, i - 1);
      if HasSigned(tasks, i - 1) {
        var k :| 0 <= k < i - 1 && tasks[k].Batch? && tasks[k].view.root != EMPTY_SHA256;
        assert HasSigned(tasks, i);
      }
    }
  }

  /** Over every run of jobs a batch job broadcasts exactly when its root or slot is new: its
      own signature for a new root, and the message of that root again in a new slot. */
  lemma BroadcastsExactly(c: Crypto, id: Identity, tasks: seq<Task>, i: nat, view: BatchView)
    requires i <= |tasks|
    ensures var out, root, slot := ProcessBatch(c, id, SharedAt(c, id, tasks, i), view).1, LastRoot(tasks, i), LastSlot(tasks, i);
            && (out.None? <==> view.root == root && view.slot == slot)
            && (view.root != root ==> out == Some(Encoded(OwnMessage(c, id, view.root))))
            && (view.root == root && view.slot != slot ==>
                  out == Some(if HasSigned(tasks, i) then Encoded(OwnMessage(c, id, root)) else NoBytes))
  {
    StoreFollowsJobs(c, id, tasks, i);
  }

  /** Every node that works on the same root and does not hold the signature yet adds it. */
  lemma BroadcastIsAdded(c: Crypto, id: Identity, root: Bytes, shared: Option<Store>)
    requires Load(shared).header == root && id.bn254 !in Load(shared).signatures
    ensures var st := Gossip(c, shared, OwnMessage(c, id, root));
            && st.Some? && id.bn254 in st.value.signatures
            && st.value.signatures[id.bn254] == Sign(c.order, c.point(root), id.bn254)
            && st.value.signers == Load(shared).signers + [ImplicitAccount(id.ed25519)]
  {
    OwnMessageVerifies(c, id, root);
  }

  /** Over every run of jobs a node posts exactly when it leads the slot and holds as many
      signatures by different keys as there are seats; it signs the random number. */
  lemma PostsExactly(c: Crypto, id: Identity, tasks: seq<Task>, i: nat, view: BatchView)
    requires i <= |tasks|
    ensures var post := LeaderPost(c, id, SharedAt(c, id, tasks, i), view);
            && (post.Some? <==> view.leader == Some(ImplicitAccount(id.ed25519)) && |Entries(c, id, tasks, i)| == view.committeeSize)
            && (post.Some? ==> Verify(c.order, c.point(LittleEndian(view.random, 32)), post.value.leaderSignature, id.bn254))
            && (post.Some? ==> post.value.signers == Accounts(Entries(c, id, tasks, i)))
  {
    StoreAggregates(c, id, tasks, i);
    AsManySigners(c, Load(SharedAt(c, id, tasks, i)), Entries(c, id, tasks, i));
    ModIdempotent(id.bn254 * c.point(LittleEndian(view.random, 32)), c.order);
  }
}
