/** Where the contract's keys and settings come from, over whole runs. */
module Provenance {
  import opened Bn254
  import opened Committee
  import opened Mainchain
  import opened Conservation

  /** The call registered `key` for its signer, with a signature on the signer's account
      name that verifies under `key`. */
  ghost predicate Proves(c: Crypto, step: Step, key: Element, a: AccountId) {
    && step.call.RegisterNode? && step.call.bn254 == key && step.env.signer == a
    && Verify(c.order, c.point(a.ascii), step.call.signature, key)
  }

  ghost predicate KeyStep(c: Crypto, s: State, step: Step, s': State, key: Element) {
    key in s'.registry.byBn254 ==>
      || (key in s.registry.byBn254 && s'.registry.byBn254[key] == s.registry.byBn254[key])
      || (key !in s.registry.byBn254 && Proves(c, step, key, s'.registry.byBn254[key]))
  }

  lemma {:induction false} MigrateKeepsKeys(r: Registry, due: seq<AccountId>)
    requires Migrate(r, due).Some?
    ensures Migrate(r, due).value.byBn254 == r.byBn254
    decreases |due|
  {
    if due != [] { MigrateKeepsKeys(Activate(r, due[0]), due[1..]); }
  }

  lemma EpochKeepsKeys(c: Crypto, s: State, env: Env)
    requires NextEpoch(c, s, env).Some?
    ensures NextEpoch(c, s, env).value.registry.byBn254 == s.registry.byBn254
    ensures NextEpoch(c, s, env).value.config == s.config && NextEpoch(c, s, env).value.dao == s.dao
  {
    var due := Due(s.registry.pending.keys, s.registry.pending.vals, env.Epoch());
    if Migrate(s.registry, due).Some? { MigrateKeepsKeys(s.registry, due); }
  }

  lemma StepKeys(c: Crypto, s: State, step: Step, key: Element)
    requires Apply(c, s, step).Some?
    ensures KeyStep(c, s, step, Apply(c, s, step).value, key)
  {
    if IsEpochStep(step.call) {
      EpochStepIs(c, s, step);
      EpochKeepsKeys(c, s, step.env);
    } else if IsBalanceUpdate(step.call) {
      var node, node' := UpdateMoves(c, s, step);
      FileKeepsKeys(s.registry, s.config, step.env.Epoch(), s.registry.byEd25519[step.call.key], node');
    } else {
      OtherStepKeys(c, s, step, key);
    }
  }

  lemma FileKeepsKeys(r: Registry, config: Config, epoch: nat, a: AccountId, node: Node)
    requires FileNode(r, config, epoch, a, node).Some?
    ensures FileNode(r, config, epoch, a, node).value.byBn254 == r.byBn254
  {
  }

  lemma OtherStepKeys(c: Crypto, s: State, step: Step, key: Element)
    requires !IsBalanceUpdate(step.call) && !IsEpochStep(step.call) && Apply(c, s, step).Some?
    ensures KeyStep(c, s, step, Apply(c, s, step).value, key)
  {
  }

  lemma LinkKeys(c: Crypto, h: History, i: nat, key: Element)
    requires IsRun(c, h) && i < |h.steps|
    ensures h.accepted[i] ==> KeyStep(c, h.states[i], h.steps[i], h.states[i + 1], key)
    ensures !h.accepted[i] ==> h.states[i + 1] == h.states[i]
  {
    assert Link(c, h, i);
    if h.accepted[i] { StepKeys(c, h.states[i], h.steps[i], key); }
  }

  /** Every indexed bn254 key was registered by the account it leads to, which proved that
      it holds the key, and no key ever changes hands. */
  lemma {:induction false} KeysWereProven(c: Crypto, h: History, i: nat, key: Element) returns (j: nat)
    requires IsRun(c, h) && i <= |h.steps| && key !in h.states[0].registry.byBn254
    requires key in h.states[i].registry.byBn254
    ensures j < i && h.accepted[j] && Proves(c, h.steps[j], key, h.states[i].registry.byBn254[key])
    ensures forall m :: j < m <= i ==>
              key in h.states[m].registry.byBn254 && h.states[m].registry.byBn254[key] == h.states[i].registry.byBn254[key]
    decreases i
  {
    if i == 0 {
      assert false;
    } else {
      LinkKeys(c, h, i - 1, key);
      if key in h.states[i - 1].registry.byBn254 {
        j := KeysWereProven(c, h, i - 1, key);
      } else {
        j := i - 1;
      }
    }
  }

  /** What a step may do to the settings: the DAO may change the minimum stake and the
      election delay, and nothing changes the rest. */
  ghost predicate ConfigStep(s: State, step: Step, s': State) {
    && s'.dao == s.dao
    && s'.config.committeeSize == s.config.committeeSize && s'.config.withdrawDelay == s.config.withdrawDelay
    && (s'.config != s.config ==> step.call.UpdateConfig? && step.env.signer == s.dao)
  }

  lemma StepConfig(c: Crypto, s: State, step: Step)
    requires Apply(c, s, step).Some?
    ensures ConfigStep(s, step, Apply(c, s, step).value)
  {
    if IsEpochStep(step.call) {
      EpochStepIs(c, s, step);
      EpochKeepsKeys(c, s, step.env);
    }
  }

  lemma LinkConfig(c: Crypto, h: History, i: nat)
    requires IsRun(c, h) && i < |h.steps|
    ensures ConfigStep(h.states[i], h.steps[i], h.states[i + 1])
    ensures h.states[i + 1].config != h.states[i].config ==> h.accepted[i]
  {
    assert Link(c, h, i);
    if h.accepted[i] { StepConfig(c, h.states[i], h.steps[i]); }
  }

  /** Over every run the settings are those of the start unless the original DAO account
      changed them. */
  lemma {:induction false} OnlyDaoConfigures(c: Crypto, h: History, i: nat)
    requires IsRun(c, h) && i <= |h.steps|
    requires forall j :: 0 <= j < i && h.steps[j].call.UpdateConfig? ==> h.steps[j].env.signer != h.states[0].dao
    ensures h.states[i].config == h.states[0].config && h.states[i].dao == h.states[0].dao
  {
    if i > 0 {
      OnlyDaoConfigures(c, h, i - 1);
      LinkConfig(c, h, i - 1);
    }
  }
}
