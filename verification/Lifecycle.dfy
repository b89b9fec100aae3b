/** How nodes become pending and active and how deposits are withdrawn, over whole runs:
    the election delay and the withdrawal delay. */
module Lifecycle {
  import opened Collections
  import opened Committee
  import opened Mainchain
  import opened Conservation

  // ----- the storage order of the active and pending nodes

  ghost predicate Ordered(r: Registry) {
    r.active.Ok() && r.pending.Ok()
  }

  lemma FileNodeOrdered(r: Registry, config: Config, epoch: nat, a: AccountId, node: Node)
    requires Ordered(r) && FileNode(r, config, epoch, a, node).Some?
    ensures Ordered(FileNode(r, config, epoch, a, node).value)
  {
    InsertOk(r.active, a, node);
    RemoveOk(r.active, a);
    InsertOk(r.pending, a, epoch + config.electionDelay);
  }

  lemma {:induction false} MigrateOrdered(r: Registry, due: seq<AccountId>)
    requires Ordered(r) && Migrate(r, due).Some?
    ensures Ordered(Migrate(r, due).value)
    decreases |due|
  {
    if due != [] {
      InsertOk(r.active, due[0], r.inactive[due[0]]);
      RemoveOk(r.pending, due[0]);
      MigrateOrdered(Activate(r, due[0]), due[1..]);
    }
  }

  lemma StepKeepsOrdered(c: Crypto, s: State, step: Step)
    requires Ordered(s.registry) && Apply(c, s, step).Some?
    ensures Ordered(Apply(c, s, step).value.registry)
  {
    var env, r := step.env, s.registry;
    if IsEpochStep(step.call) {
      EpochStepIs(c, s, step);
      EpochOrdered(c, s, env);
    } else if IsBalanceUpdate(step.call) {
      var node, node' := UpdateMoves(c, s, step);
      FileNodeOrdered(r, s.config, env.Epoch(), r.byEd25519[step.call.key], node');
    } else if step.call.UpdateNode? {
      InsertOk(r.active, env.signer, NodeOf(r, env.signer).value.(multiAddr := step.call.newMultiAddr));
    }
  }

  lemma EpochOrdered(c: Crypto, s: State, env: Env)
    requires Ordered(s.registry) && NextEpoch(c, s, env).Some?
    ensures Ordered(NextEpoch(c, s, env).value.registry)
  {
    var due := Due(s.registry.pending.keys, s.registry.pending.vals, env.Epoch());
    if Migrate(s.registry, due).Some? { MigrateOrdered(s.registry, due); }
  }

  lemma LinkKeepsOrdered(c: Crypto, h: History, i: nat)
    requires IsRun(c, h) && i < |h.steps| && Ordered(h.states[i].registry)
    ensures Ordered(h.states[i + 1].registry)
  {
    assert Link(c, h, i);
    if h.accepted[i] { StepKeepsOrdered(c, h.states[i], h.steps[i]); }
  }

  lemma {:induction false} RunKeepsOrdered(c: Crypto, h: History, i: nat)
    requires IsRun(c, h) && i <= |h.steps| && Ordered(h.states[0].registry)
    ensures Ordered(h.states[i].registry)
  {
    if i > 0 {
      RunKeepsOrdered(c, h, i - 1);
      LinkKeepsOrdered(c, h, i - 1);
    }
  }

  // ----- pending and active accounts, one step at a time

  lemma {:induction false} MigrateOnlyDue(r: Registry, due: seq<AccountId>)
    requires Migrate(r, due).Some?
    ensures var r' := Migrate(r, due).value;
            && (forall a :: a in r'.active.vals ==> a in r.active.vals || a in due)
            && (forall a :: a in r'.pending.vals ==> a in r.pending.vals && r'.pending.vals[a] == r.pending.vals[a])
    decreases |due|
  {
    if due != [] {
      MigrateOnlyDue(Activate(r, due[0]), due[1..]);
      assert forall a :: a in due[1..] ==> a in due;
    }
  }

  /** The call updates the balance of `a`'s node, which is not active, and leaves it at or
      above the minimum stake. */
  ghost predicate Queues(s: State, step: Step, a: AccountId) {
    && IsBalanceUpdate(step.call) && step.call.key in s.registry.byEd25519 && s.registry.byEd25519[step.call.key] == a
    && a !in s.registry.active.vals && NodeOf(s.registry, a).Some?
    && Adjusted(NodeOf(s.registry, a).value.balance, step.call) >= s.config.minimumStake
  }

  ghost predicate PendingFor(r: Registry, a: AccountId, e: nat) {
    a in r.pending.vals && r.pending.vals[a] == e
  }

  /** Where the pending entry of `a` comes from, and when `a` can turn active. */
  ghost predicate QueueStep(s: State, step: Step, r': Registry, a: AccountId) {
    && (Queues(s, step, a) ==> PendingFor(r', a, step.env.Epoch() + s.config.electionDelay))
    && (!Queues(s, step, a) && a in r'.pending.vals ==> PendingFor(s.registry, a, r'.pending.vals[a]))
    && (a in r'.active.vals ==>
          || a in s.registry.active.vals
          || (IsEpochStep(step.call) && a in s.registry.pending.vals && s.registry.pending.vals[a] <= step.env.Epoch()))
  }

  lemma EpochQueueStep(c: Crypto, s: State, step: Step, a: AccountId)
    requires IsEpochStep(step.call) && NextEpoch(c, s, step.env).Some?
    ensures QueueStep(s, step, NextEpoch(c, s, step.env).value.registry, a)
  {
    var due := Due(s.registry.pending.keys, s.registry.pending.vals, step.env.Epoch());
    if Migrate(s.registry, due).Some? { MigrateOnlyDue(s.registry, due); }
  }

  lemma FileQueueStep(s: State, step: Step, r': Registry, node: Node, node': Node, a: AccountId)
    requires IsBalanceUpdate(step.call) && NodeByEd25519(s.registry, step.call.key) == Some(node)
    requires node'.balance == Adjusted(node.balance, step.call)
    requires FileNode(s.registry, s.config, step.env.Epoch(), s.registry.byEd25519[step.call.key], node').Some?
    requires var filed := FileNode(s.registry, s.config, step.env.Epoch(), s.registry.byEd25519[step.call.key], node').value;
             r'.pending == filed.pending && r'.active == filed.active
    ensures QueueStep(s, step, r', a)
  {
  }

  lemma UpdateQueueStep(c: Crypto, s: State, step: Step, a: AccountId)
    requires IsBalanceUpdate(step.call) && Apply(c, s, step).Some?
    ensures QueueStep(s, step, Apply(c, s, step).value.registry, a)
  {
    var node, node' := UpdateMoves(c, s, step);
    FileQueueStep(s, step, Apply(c, s, step).value.registry, node, node', a);
  }

  lemma SameQueueStep(s: State, step: Step, r': Registry, a: AccountId)
    requires !IsBalanceUpdate(step.call) && r'.pending == s.registry.pending
    requires forall b :: b in r'.active.vals ==> b in s.registry.active.vals
    ensures QueueStep(s, step, r', a)
  {
  }

  lemma OtherQueueStep(c: Crypto, s: State, step: Step, a: AccountId)
    requires !IsBalanceUpdate(step.call) && !IsEpochStep(step.call) && Apply(c, s, step).Some?
    ensures QueueStep(s, step, Apply(c, s, step).value.registry, a)
  {
    var r' := Apply(c, s, step).value.registry;
    if step.call.UpdateNode? {
      UpdateKeepsQueue(s, step.env, step.call.newMultiAddr);
    } else {
      assert r'.pending == s.registry.pending && r'.active == s.registry.active;
    }
    SameQueueStep(s, step, r', a);
  }

  lemma UpdateKeepsQueue(s: State, env: Env, addr: string)
    requires UpdateAddress(s, env, addr).Some?
    ensures var r' := UpdateAddress(s, env, addr).value.registry;
            r'.pending == s.registry.pending && forall b :: b in r'.active.vals ==> b in s.registry.active.vals
  {
  }

  lemma StepQueue(c: Crypto, s: State, step: Step, a: AccountId)
    requires Apply(c, s, step).Some?
    ensures QueueStep(s, step, Apply(c, s, step).value.registry, a)
  {
    if IsBalanceUpdate(step.call) {
      UpdateQueueStep(c, s, step, a);
    } else if IsEpochStep(step.call) {
      EpochStepIs(c, s, step);
      EpochQueueStep(c, s, step, a);
    } else {
      OtherQueueStep(c, s, step, a);
    }
  }

  lemma LinkQueue(c: Crypto, h: History, i: nat, a: AccountId)
    requires IsRun(c, h) && i < |h.steps|
    ensures if h.accepted[i] then QueueStep(h.states[i], h.steps[i], h.states[i + 1].registry, a) else h.states[i + 1] == h.states[i]
  {
    assert Link(c, h, i);
    if h.accepted[i] { StepQueue(c, h.states[i], h.steps[i], a); }
  }

  // ----- the election delay

  ghost predicate QueuesAt(h: History, i: nat, a: AccountId)
    requires i < |h.steps| == |h.accepted| && |h.states| == |h.steps| + 1
  {
    h.accepted[i] && Queues(h.states[i], h.steps[i], a)
  }

  /** The epoch for which a balance update at step `j` queues its node. */
  ghost function QueuedFor(h: History, j: nat): nat
    requires j < |h.steps| && |h.states| == |h.steps| + 1
  {
    h.steps[j].env.Epoch() + h.states[j].config.electionDelay
  }

  /** The balance update at step `j` is the last before step `i` that queued `a`, and its
      entry stood until step `i`. */
  ghost predicate LastQueued(h: History, j: nat, i: nat, a: AccountId)
    requires j < i <= |h.steps| == |h.accepted| && |h.states| == |h.steps| + 1
  {
    && QueuesAt(h, j, a)
    && (forall m :: j < m < i ==> !QueuesAt(h, m, a))
    && (forall m :: j < m <= i ==> PendingFor(h.states[m].registry, a, QueuedFor(h, j)))
  }

  lemma {:induction false} PendingWasQueued(c: Crypto, h: History, i: nat, a: AccountId) returns (j: nat)
    requires IsRun(c, h) && i <= |h.steps|
    requires a !in h.states[0].registry.pending.vals && a in h.states[i].registry.pending.vals
    ensures j < i && LastQueued(h, j, i, a)
    decreases i
  {
    if i == 0 {
      assert false;
    } else {
      LinkQueue(c, h, i - 1, a);
      if QueuesAt(h, i - 1, a) {
        j := i - 1;
      } else {
        j := PendingWasQueued(c, h, i - 1, a);
      }
    }
  }

  /** Over every run an account turns active only in an epoch change, no earlier than the
      election delay after the balance update of its node that last queued it. */
  lemma ActivationWaitsForDelay(c: Crypto, h: History, i: nat, a: AccountId) returns (j: nat)
    requires IsRun(c, h) && i < |h.steps| && a !in h.states[0].registry.pending.vals
    requires a !in h.states[i].registry.active.vals && a in h.states[i + 1].registry.active.vals
    ensures IsEpochStep(h.steps[i].call) && j < i && LastQueued(h, j, i, a)
    ensures h.steps[i].env.Epoch() >= h.steps[j].env.Epoch() + h.states[j].config.electionDelay
  {
    LinkQueue(c, h, i, a);
    j := PendingWasQueued(c, h, i, a);
    assert PendingFor(h.states[i].registry, a, QueuedFor(h, j));
  }

  // ----- the withdrawal delay

  /** A call that makes the request when it is accepted. */
  ghost predicate Makes(step: Step, p: (AccountId, Ed25519Key)) {
    step.call.RequestWithdraw? && (step.env.signer, step.call.key) == p
  }

  /** How one step treats the withdrawal request of `p`: a withdrawal or a cancellation by
      its owner takes it away, a request by its owner makes it where there was none, and
      everything else leaves it alone. */
  ghost predicate RequestStep(s: State, step: Step, s': State, p: (AccountId, Ed25519Key)) {
    var r, r' := s.registry.requests, s'.registry.requests;
    && s'.config.withdrawDelay == s.config.withdrawDelay
    && if Consumes(step, p) then p !in r'
       else if Makes(step, p) then
         p !in r && p in r' && r'[p] == WithdrawRequest(step.call.amount, step.env.Epoch() + s.config.withdrawDelay)
       else (p in r' <==> p in r) && (p in r ==> r'[p] == r[p])
  }

  /** A call that takes the request away when it is accepted. */
  ghost predicate Consumes(step: Step, p: (AccountId, Ed25519Key)) {
    (step.call.Withdraw? || step.call.CancelWithdrawRequest?) && (step.env.signer, step.call.key) == p
  }

  lemma {:induction false} MigrateKeepsRequests(r: Registry, due: seq<AccountId>)
    requires Migrate(r, due).Some?
    ensures Migrate(r, due).value.requests == r.requests
    decreases |due|
  {
    if due != [] { MigrateKeepsRequests(Activate(r, due[0]), due[1..]); }
  }

  lemma EpochKeepsRequests(c: Crypto, s: State, env: Env)
    requires NextEpoch(c, s, env).Some?
    ensures NextEpoch(c, s, env).value.registry.requests == s.registry.requests
    ensures NextEpoch(c, s, env).value.config == s.config
  {
    var due := Due(s.registry.pending.keys, s.registry.pending.vals, env.Epoch());
    if Migrate(s.registry, due).Some? { MigrateKeepsRequests(s.registry, due); }
  }

  lemma StepRequest(c: Crypto, s: State, step: Step, p: (AccountId, Ed25519Key))
    requires Apply(c, s, step).Some?
    ensures RequestStep(s, step, Apply(c, s, step).value, p)
  {
    if IsEpochStep(step.call) {
      EpochStepIs(c, s, step);
      EpochKeepsRequests(c, s, step.env);
    } else if step.call.Deposit? {
      DepositKeepsRequests(s, step.env, step.call.amount, step.call.key);
    } else if step.call.Withdraw? {
      WithdrawTakesRequest(s, step.env, step.call.amount, step.call.key);
    } else {
      OtherRequestStep(c, s, step, p);
    }
  }

  lemma OtherRequestStep(c: Crypto, s: State, step: Step, p: (AccountId, Ed25519Key))
    requires !IsBalanceUpdate(step.call) && !IsEpochStep(step.call) && Apply(c, s, step).Some?
    ensures RequestStep(s, step, Apply(c, s, step).value, p)
  {
  }

  lemma FileKeepsRequests(r: Registry, config: Config, epoch: nat, a: AccountId, node: Node)
    requires FileNode(r, config, epoch, a, node).Some?
    ensures FileNode(r, config, epoch, a, node).value.requests == r.requests
  {
  }

  lemma DepositKeepsRequests(s: State, env: Env, amount: nat, key: Ed25519Key)
    requires DepositInto(s, env, amount, key).Some?
    ensures DepositInto(s, env, amount, key).value.registry.requests == s.registry.requests
    ensures DepositInto(s, env, amount, key).value.config == s.config
  {
    FileKeepsRequests(s.registry, s.config, env.Epoch(), s.registry.byEd25519[key], AfterDeposit(s, amount, key));
  }

  lemma WithdrawTakesRequest(s: State, env: Env, amount: nat, key: Ed25519Key)
    requires WithdrawFrom(s, env, amount, key).Some?
    ensures WithdrawFrom(s, env, amount, key).value.registry.requests == s.registry.requests - {(env.signer, key)}
    ensures WithdrawFrom(s, env, amount, key).value.config == s.config
  {
    FileKeepsRequests(s.registry, s.config, env.Epoch(), s.registry.byEd25519[key], AfterWithdraw(s, amount, key));
  }

  /** The request accepted at step `j` stood, untouched, until step `i`. */
  ghost predicate RequestedSince(h: History, j: nat, i: nat, p: (AccountId, Ed25519Key))
    requires j < i <= |h.steps| == |h.accepted| && |h.states| == |h.steps| + 1
  {
    && h.accepted[j] && h.steps[j].call.RequestWithdraw? && (h.steps[j].env.signer, h.steps[j].call.key) == p
    && (forall m :: j < m <= i ==> p in h.states[m].registry.requests)
    && h.states[i].registry.requests[p].epoch == h.steps[j].env.Epoch() + h.states[0].config.withdrawDelay
  }

  lemma {:induction false} DelayIsFixed(c: Crypto, h: History, i: nat)
    requires IsRun(c, h) && i <= |h.steps|
    ensures h.states[i].config.withdrawDelay == h.states[0].config.withdrawDelay
  {
    if i > 0 {
      DelayIsFixed(c, h, i - 1);
      assert Link(c, h, i - 1);
      if h.accepted[i - 1] { StepRequest(c, h.states[i - 1], h.steps[i - 1], (h.steps[i - 1].env.signer, Ed25519([]))); }
    }
  }

  lemma RequestBefore(c: Crypto, h: History, i: nat, p: (AccountId, Ed25519Key))
    requires IsRun(c, h) && i < |h.steps| && p in h.states[i + 1].registry.requests
    ensures var r, r' := h.states[i].registry.requests, h.states[i + 1].registry.requests;
            if p in r then r'[p] == r[p]
            else h.accepted[i] && h.steps[i].call.RequestWithdraw? && (h.steps[i].env.signer, h.steps[i].call.key) == p
                 && r'[p].epoch == h.steps[i].env.Epoch() + h.states[0].config.withdrawDelay
  {
    DelayIsFixed(c, h, i);
    assert Link(c, h, i);
    if h.accepted[i] { StepRequest(c, h.states[i], h.steps[i], p); }
  }

  lemma {:induction false} RequestWasMade(c: Crypto, h: History, i: nat, p: (AccountId, Ed25519Key)) returns (j: nat)
    requires IsRun(c, h) && i <= |h.steps|
    requires p !in h.states[0].registry.requests && p in h.states[i].registry.requests
    ensures j < i && RequestedSince(h, j, i, p)
    decreases i
  {
    if i == 0 {
      assert false;
    } else {
      RequestBefore(c, h, i - 1, p);
      if p in h.states[i - 1].registry.requests {
        j := RequestWasMade(c, h, i - 1, p);
      } else {
        j := i - 1;
      }
    }
  }

  lemma AcceptedConsumerTakes(c: Crypto, h: History, i: nat, p: (AccountId, Ed25519Key))
    requires IsRun(c, h) && i < |h.steps| && h.accepted[i] && Consumes(h.steps[i], p)
    ensures p !in h.states[i + 1].registry.requests
  {
    assert Link(c, h, i);
    StepRequest(c, h.states[i], h.steps[i], p);
  }

  /** Every accepted withdrawal answers a request by the same account for the same node,
      made at least the withdrawal delay before, and neither cancelled nor used since. */
  lemma WithdrawalAnswersRequest(c: Crypto, h: History, i: nat) returns (j: nat)
    requires IsRun(c, h) && i < |h.steps| && h.steps[i].call.Withdraw? && h.accepted[i]
    requires (h.steps[i].env.signer, h.steps[i].call.key) !in h.states[0].registry.requests
    ensures j < i && RequestedSince(h, j, i, (h.steps[i].env.signer, h.steps[i].call.key))
    ensures h.steps[i].env.Epoch() >= h.steps[j].env.Epoch() + h.states[0].config.withdrawDelay
    ensures forall m :: j < m < i && h.accepted[m] ==> !Consumes(h.steps[m], (h.steps[i].env.signer, h.steps[i].call.key))
  {
    var p := (h.steps[i].env.signer, h.steps[i].call.key);
    assert Link(c, h, i);
    j := RequestWasMade(c, h, i, p);
    forall m | j < m < i && h.accepted[m] ensures !Consumes(h.steps[m], p) {
      if Consumes(h.steps[m], p) { AcceptedConsumerTakes(c, h, m, p); }
    }
  }

  /** No request pays out twice: a later withdrawal answers a request made after the
      earlier withdrawal. */
  lemma RequestsPayOnce(c: Crypto, h: History, i1: nat, i2: nat, j2: nat)
    requires IsRun(c, h) && i1 < i2 < |h.steps| && j2 < i2
    requires h.steps[i1].call.Withdraw? && h.accepted[i1]
    requires RequestedSince(h, j2, i2, (h.steps[i1].env.signer, h.steps[i1].call.key))
    ensures i1 < j2
  {
    AcceptedConsumerTakes(c, h, i1, (h.steps[i1].env.signer, h.steps[i1].call.key));
  }
}
