/** contracts/src/committee.rs: choosing committee seats from a stream of hashes.

    Seat `i` first tries the hash of counter `i`; while the index is taken it tries
    the counters `i + size + rerolls` with a reroll count that is never reset.  The
    source loop has no bound of its own, so the model carries the one that NEAR
    imposes: `gas` is the number of rerolls a transaction can pay for, and a
    selection that needs more is abandoned. */
module Committee {
  import opened Bytes
  import opened Collections

  datatype AccountId = AccountId(ascii: Bytes)

  type Stream = nat -> nat

  /** The 256-bit number hashed from the last random number and a counter. */
  function Prn(sha: Sha256, random: nat, counter: nat): nat {
    FromLittleEndian(sha(LittleEndian(random, 32) + LittleEndian(counter, 8)).bytes)
  }

  function PrnStream(sha: Sha256, random: nat): Stream {
    k => Prn(sha, random, k)
  }

  /** The inner loop: the first index not taken, with the reroll count it used. */
  function Reroll(prn: Stream, n: nat, base: nat, chosen: seq<nat>, idx: nat, rerolls: nat, gas: nat)
    : Option<(nat, nat)>
    requires n > 0 && rerolls <= gas
    decreases gas - rerolls
  {
    if idx !in chosen then Some((idx, rerolls))
    else if rerolls == gas then None
    else Reroll(prn, n, base, chosen, prn(base + rerolls + 1) % n, rerolls + 1, gas)
  }

  function SelectFrom(prn: Stream, n: nat, size: nat, chosen: seq<nat>, rerolls: nat, gas: nat): Option<seq<nat>>
    requires |chosen| <= size && rerolls <= gas
    decreases size - |chosen|
  {
    var i := |chosen|;
    if i == size then Some(chosen)
    else if n == 0 then None
    else
      match Reroll(prn, n, i + size, chosen, prn(i) % n, rerolls, gas)
      case None => None
      case Some((idx, used)) =>
        RerollResult(prn, n, i + size, chosen, prn(i) % n, rerolls, gas);
        SelectFrom(prn, n, size, chosen + [idx], used, gas)
  }

  function SelectIndices(prn: Stream, n: nat, size: nat, gas: nat): Option<seq<nat>> {
    SelectFrom(prn, n, size, [], 0, gas)
  }

  lemma {:induction false} RerollResult(prn: Stream, n: nat, base: nat, chosen: seq<nat>, idx: nat, rerolls: nat, gas: nat)
    requires n > 0 && idx < n && rerolls <= gas
    ensures var r := Reroll(prn, n, base, chosen, idx, rerolls, gas);
            r.Some? ==> r.value.0 < n && r.value.0 !in chosen && rerolls <= r.value.1 <= gas
    decreases gas - rerolls
  {
    if idx in chosen && rerolls < gas {
      RerollResult(prn, n, base, chosen, prn(base + rerolls + 1) % n, rerolls + 1, gas);
    }
  }

  /** A selection that ends has `size` pairwise distinct seats, so there were at
      least that many candidates. */
  lemma {:induction false} SelectFromDistinct(prn: Stream, n: nat, size: nat, chosen: seq<nat>, rerolls: nat, gas: nat)
    requires |chosen| <= size && rerolls <= gas
    requires NoDup(chosen) && forall i :: 0 <= i < |chosen| ==> chosen[i] < n
    ensures var r := SelectFrom(prn, n, size, chosen, rerolls, gas);
            r.Some? ==>
              && |r.value| == size
              && NoDup(r.value)
              && (forall i :: 0 <= i < size ==> r.value[i] < n)
    decreases size - |chosen|
  {
    var i := |chosen|;
    if i < size && n > 0 {
      var r := Reroll(prn, n, i + size, chosen, prn(i) % n, rerolls, gas);
      RerollResult(prn, n, i + size, chosen, prn(i) % n, rerolls, gas);
      if r.Some? {
        SelectFromDistinct(prn, n, size, chosen + [r.value.0], r.value.1, gas);
      }
    }
  }

  // ----- which seats are drawn

  /** The index that counter `k` gives. */
  ghost function Index(prn: Stream, n: nat, k: nat): nat
    requires n > 0
  {
    prn(k) % n
  }

  /** How a seat is drawn when the indices in `taken` are gone: by its own counter if that
      gives a free index, and otherwise by the first counter past the rerolls used so far
      that does. */
  ghost predicate Draw(prn: Stream, n: nat, size: nat, taken: seq<nat>, i: nat, idx: nat, before: nat, after: nat) {
    && n > 0 && idx !in taken
    && if Index(prn, n, i) !in taken then idx == Index(prn, n, i) && after == before
       else Redraw(prn, n, i + size, taken, idx, before, after)
  }

  ghost predicate Redraw(prn: Stream, n: nat, base: nat, taken: seq<nat>, idx: nat, before: nat, after: nat) {
    && n > 0 && before < after && idx == Index(prn, n, base + after)
    && forall k: nat :: base + before < k < base + after ==> Index(prn, n, k) in taken
  }

  lemma {:induction false} RerollDraws(prn: Stream, n: nat, base: nat, chosen: seq<nat>, idx: nat, rerolls: nat, gas: nat)
    requires n > 0 && rerolls <= gas
    ensures var r := Reroll(prn, n, base, chosen, idx, rerolls, gas);
            r.Some? ==>
              && r.value.0 !in chosen
              && if idx !in chosen then r.value == (idx, rerolls)
                 else Redraw(prn, n, base, chosen, r.value.0, rerolls, r.value.1)
    decreases gas - rerolls
  {
    if idx in chosen && rerolls < gas {
      var next := Index(prn, n, base + rerolls + 1);
      RerollDraws(prn, n, base, chosen, next, rerolls + 1, gas);
      var r := Reroll(prn, n, base, chosen, next, rerolls + 1, gas);
      if r.Some? { RedrawOneMore(prn, n, base, chosen, r.value.0, rerolls, r.value.1); }
    }
  }

  lemma RedrawOneMore(prn: Stream, n: nat, base: nat, taken: seq<nat>, idx: nat, before: nat, after: nat)
    requires n > 0
    requires if Index(prn, n, base + before + 1) !in taken then idx == Index(prn, n, base + before + 1) && after == before + 1
             else Redraw(prn, n, base, taken, idx, before + 1, after)
    ensures Redraw(prn, n, base, taken, idx, before, after)
  {
  }

  /** The seats from `start` on are drawn, with these counts of rerolls. */
  ghost predicate DrawnFrom(prn: Stream, n: nat, size: nat, d: seq<nat>, used: seq<nat>, start: nat) {
    && start <= size == |d| && |used| == size - start + 1
    && forall i :: start <= i < size ==> Draw(prn, n, size, d[..i], i, d[i], used[i - start], used[i - start + 1])
  }

  lemma DrawnOneEarlier(prn: Stream, n: nat, size: nat, d: seq<nat>, used: seq<nat>, start: nat, before: nat)
    requires DrawnFrom(prn, n, size, d, used, start + 1) && Draw(prn, n, size, d[..start], start, d[start], before, used[0])
    ensures DrawnFrom(prn, n, size, d, [before] + used, start)
  {
    var more := [before] + used;
    forall i | start <= i < size ensures Draw(prn, n, size, d[..i], i, d[i], more[i - start], more[i - start + 1]) {
      if i > start { assert more[i - start] == used[i - (start + 1)] && more[i - start + 1] == used[i - (start + 1) + 1]; }
    }
  }

  lemma FirstDraw(prn: Stream, n: nat, size: nat, chosen: seq<nat>, rerolls: nat, gas: nat) returns (r: (nat, nat))
    requires |chosen| < size && rerolls <= gas && SelectFrom(prn, n, size, chosen, rerolls, gas).Some?
    ensures Draw(prn, n, size, chosen, |chosen|, r.0, rerolls, r.1) && rerolls <= r.1 <= gas
    ensures SelectFrom(prn, n, size, chosen, rerolls, gas) == SelectFrom(prn, n, size, chosen + [r.0], r.1, gas)
  {
    var i := |chosen|;
    r := Reroll(prn, n, i + size, chosen, prn(i) % n, rerolls, gas).value;
    RerollDraws(prn, n, i + size, chosen, prn(i) % n, rerolls, gas);
    RerollResult(prn, n, i + size, chosen, prn(i) % n, rerolls, gas);
  }

  lemma {:induction false} SelectFromDraws(prn: Stream, n: nat, size: nat, chosen: seq<nat>, rerolls: nat, gas: nat)
    returns (used: seq<nat>)
    requires |chosen| <= size && rerolls <= gas && SelectFrom(prn, n, size, chosen, rerolls, gas).Some?
    ensures var d := SelectFrom(prn, n, size, chosen, rerolls, gas).value;
            chosen <= d && DrawnFrom(prn, n, size, d, used, |chosen|) && used[0] == rerolls
    decreases size - |chosen|
  {
    var i := |chosen|;
    if i == size {
      used := [rerolls];
    } else {
      var r := FirstDraw(prn, n, size, chosen, rerolls, gas);
      var rest := SelectFromDraws(prn, n, size, chosen + [r.0], r.1, gas);
      var d := SelectFrom(prn, n, size, chosen + [r.0], r.1, gas).value;
      assert d[..i] == chosen && d[i] == r.0;
      used := [rerolls] + rest;
      DrawnOneEarlier(prn, n, size, d, rest, i, rerolls);
    }
  }

  /** The seats are those drawn one after the other, the rerolls counted on from seat to
      seat. */
  ghost predicate DrawnSeats(prn: Stream, n: nat, size: nat, d: seq<nat>, used: seq<nat>) {
    DrawnFrom(prn, n, size, d, used, 0) && used[0] == 0
  }

  lemma SeatsAreDrawn(prn: Stream, n: nat, size: nat, gas: nat) returns (used: seq<nat>)
    requires SelectIndices(prn, n, size, gas).Some?
    ensures DrawnSeats(prn, n, size, SelectIndices(prn, n, size, gas).value, used)
  {
    used := SelectFromDraws(prn, n, size, [], 0, gas);
  }

  lemma SameDraw(prn: Stream, n: nat, size: nat, taken: seq<nat>, i: nat, x: nat, y: nat, before: nat, after: nat, after': nat)
    requires Draw(prn, n, size, taken, i, x, before, after) && Draw(prn, n, size, taken, i, y, before, after')
    ensures x == y && after == after'
  {
    if Index(prn, n, i) in taken {
      assert Index(prn, n, i + size + after) !in taken && Index(prn, n, i + size + after') !in taken;
    }
  }

  lemma DrawnAt(prn: Stream, n: nat, size: nat, d: seq<nat>, used: seq<nat>, i: nat)
    requires DrawnSeats(prn, n, size, d, used) && i < size
    ensures Draw(prn, n, size, d[..i], i, d[i], used[i], used[i + 1])
  {
    assert Draw(prn, n, size, d[..i], i, d[i], used[i - 0], used[i - 0 + 1]);
  }

  lemma PrefixOneMore(d: seq<nat>, e: seq<nat>, k: nat)
    requires k < |d| && k < |e| && d[..k] == e[..k] && d[k] == e[k]
    ensures d[..k + 1] == e[..k + 1]
  {
    assert d[..k + 1] == d[..k] + [d[k]] && e[..k + 1] == e[..k] + [e[k]];
  }

  /** There is only one way to draw them. */
  lemma {:induction false} DrawIsUnique(prn: Stream, n: nat, size: nat, d: seq<nat>, used: seq<nat>, e: seq<nat>, used': seq<nat>, k: nat)
    requires DrawnSeats(prn, n, size, d, used) && DrawnSeats(prn, n, size, e, used') && k <= size
    ensures d[..k] == e[..k] && used[k] == used'[k]
  {
    if k > 0 {
      DrawIsUnique(prn, n, size, d, used, e, used', k - 1);
      DrawnAt(prn, n, size, d, used, k - 1);
      DrawnAt(prn, n, size, e, used', k - 1);
      SameDraw(prn, n, size, d[..k - 1], k - 1, d[k - 1], e[k - 1], used[k - 1], used[k], used'[k]);
      PrefixOneMore(d, e, k - 1);
    }
  }

  function Seats(validators: seq<AccountId>, indices: seq<nat>): (r: seq<AccountId>)
    requires forall i :: 0 <= i < |indices| ==> indices[i] < |validators|
    ensures |r| == |indices| && forall i :: 0 <= i < |r| ==> r[i] == validators[indices[i]]
  {
    seq(|indices|, i requires 0 <= i < |indices| => validators[indices[i]])
  }

  function CommitteeOf(prn: Stream, validators: seq<AccountId>, size: nat, gas: nat): (c: Option<seq<AccountId>>)
    ensures c.Some? ==> |c.value| == size && forall i :: 0 <= i < size ==> c.value[i] in validators
  {
    SelectFromDistinct(prn, |validators|, size, [], 0, gas);
    match SelectIndices(prn, |validators|, size, gas)
    case None => None
    case Some(indices) => Some(Seats(validators, indices))
  }

  /** The committee is made of the candidates at the seats drawn. */
  lemma CommitteeIsDrawn(prn: Stream, validators: seq<AccountId>, size: nat, gas: nat) returns (d: seq<nat>, used: seq<nat>)
    requires CommitteeOf(prn, validators, size, gas).Some?
    ensures DrawnSeats(prn, |validators|, size, d, used)
    ensures |CommitteeOf(prn, validators, size, gas).value| == size
    ensures forall i :: 0 <= i < size ==> d[i] < |validators| && CommitteeOf(prn, validators, size, gas).value[i] == validators[d[i]]
  {
    SelectFromDistinct(prn, |validators|, size, [], 0, gas);
    d := SelectIndices(prn, |validators|, size, gas).value;
    used := SeatsAreDrawn(prn, |validators|, size, gas);
  }

  /** Exactly `size` pairwise distinct members, all of them active nodes, and hence at
      least `size` active nodes. */
  lemma CommitteeIsDistinct(prn: Stream, validators: seq<AccountId>, size: nat, gas: nat)
    requires NoDup(validators)
    ensures var c := CommitteeOf(prn, validators, size, gas);
            c.Some? ==>
              && |c.value| == size <= |validators|
              && NoDup(c.value)
              && Elems(c.value) <= Elems(validators)
  {
    SelectFromDistinct(prn, |validators|, size, [], 0, gas);
    var indices := SelectIndices(prn, |validators|, size, gas);
    if indices.Some? { DistinctIndicesBounded(indices.value, |validators|); }
  }

  /** The inner loop: reroll until the index is not taken. */
  method FreeIndex(prn: Stream, n: nat, base: nat, chosen: seq<nat>, first: nat, rerolls: nat, gas: nat)
    returns (found: Option<(nat, nat)>)
    requires n > 0 && first < n && rerolls <= gas
    ensures found == Reroll(prn, n, base, chosen, first, rerolls, gas)
  {
    var idx: nat, used: nat := first, rerolls;
    while idx in chosen
      invariant idx < n && used <= gas
      invariant Reroll(prn, n, base, chosen, idx, used, gas) == Reroll(prn, n, base, chosen, first, rerolls, gas)
      decreases gas - used
    {
      if used == gas { return None; }
      used := used + 1;
      idx := prn(base + used) % n;
    }
    return Some((idx, used));
  }

  method SelectCommittee(prn: Stream, validators: seq<AccountId>, size: nat, gas: nat)
    returns (committee: Option<seq<AccountId>>)
    ensures committee == CommitteeOf(prn, validators, size, gas)
  {
    var n := |validators|;
    var chosen: seq<nat>, members, rerolls: nat := [], [], 0;
    for i := 0 to size
      invariant |chosen| == i && rerolls <= gas
      invariant forall k :: 0 <= k < i ==> chosen[k] < n
      invariant members == Seats(validators, chosen)
      invariant SelectFrom(prn, n, size, chosen, rerolls, gas) == SelectIndices(prn, n, size, gas)
    {
      if n == 0 { return None; }
      var found := FreeIndex(prn, n, i + size, chosen, prn(i) % n, rerolls, gas);
      if found.None? { return None; }
      RerollResult(prn, n, i + size, chosen, prn(i) % n, rerolls, gas);
      var idx := found.value.0;
      rerolls := found.value.1;
      members := members + [validators[idx]];
      chosen := chosen + [idx];
    }
    return Some(members);
  }

  // ----- termination

  lemma {:induction false} RerollMoreGas(prn: Stream, n: nat, base: nat, chosen: seq<nat>, idx: nat, rerolls: nat, gas: nat, more: nat)
    requires n > 0 && idx < n && rerolls <= gas <= more
    requires Reroll(prn, n, base, chosen, idx, rerolls, gas).Some?
    ensures Reroll(prn, n, base, chosen, idx, rerolls, more) == Reroll(prn, n, base, chosen, idx, rerolls, gas)
    decreases gas - rerolls
  {
    if idx in chosen {
      RerollMoreGas(prn, n, base, chosen, prn(base + rerolls + 1) % n, rerolls + 1, gas, more);
    }
  }

  /** The outcome does not depend on how much gas was left over. */
  lemma {:induction false} SelectMoreGas(prn: Stream, n: nat, size: nat, chosen: seq<nat>, rerolls: nat, gas: nat, more: nat)
    requires |chosen| <= size && rerolls <= gas <= more
    requires SelectFrom(prn, n, size, chosen, rerolls, gas).Some?
    ensures SelectFrom(prn, n, size, chosen, rerolls, more) == SelectFrom(prn, n, size, chosen, rerolls, gas)
    decreases size - |chosen|
  {
    var i := |chosen|;
    if i < size {
      RerollMoreGas(prn, n, i + size, chosen, prn(i) % n, rerolls, gas, more);
      var r := Reroll(prn, n, i + size, chosen, prn(i) % n, rerolls, gas).value;
      RerollResult(prn, n, i + size, chosen, prn(i) % n, rerolls, gas);
      SelectMoreGas(prn, n, size, chosen + [r.0], r.1, gas, more);
    }
  }

  lemma {:induction false} RerollReaches(prn: Stream, n: nat, base: nat, chosen: seq<nat>, idx: nat, rerolls: nat, at: nat)
    requires n > 0 && idx < n && rerolls <= at
    requires (if at == rerolls then idx else prn(base + at) % n) !in chosen
    ensures Reroll(prn, n, base, chosen, idx, rerolls, at).Some?
    decreases at - rerolls
  {
    if idx in chosen {
      RerollReaches(prn, n, base, chosen, prn(base + rerolls + 1) % n, rerolls + 1, at);
    }
  }

  ghost predicate Hits(prn: Stream, n: nat, j: nat, start: nat) {
    n > 0 && exists k :: k >= start && prn(k) % n == j
  }

  /** The stream keeps coming back to every index. */
  ghost predicate Fair(prn: Stream, n: nat) {
    forall j: nat, start: nat :: j < n ==> Hits(prn, n, j, start)
  }

  lemma UnusedIndex(chosen: seq<nat>, n: nat) returns (j: nat)
    requires |chosen| < n
    ensures j < n && j !in chosen
  {
    if forall j: nat :: j < n ==> j in chosen {
      assert Below(n) <= Elems(chosen);
      SubsetCardinality(Below(n), Elems(chosen));
      ElemsBounded(chosen);
      assert false;
    }
    j :| j < n && j !in chosen;
  }

  lemma {:induction false} ElemsBounded<T>(s: seq<T>)
    ensures |Elems(s)| <= |s|
  {
    if s != [] {
      var t := s[..|s| - 1];
      ElemsBounded(t);
      assert s == t + [s[|s| - 1]];
      assert Elems(s) == Elems(t) + {s[|s| - 1]};
    }
  }

  lemma FairSeat(prn: Stream, n: nat, base: nat, chosen: seq<nat>, first: nat, rerolls: nat) returns (gas: nat)
    requires Fair(prn, n) && |chosen| < n && first < n
    ensures gas >= rerolls && Reroll(prn, n, base, chosen, first, rerolls, gas).Some?
  {
    gas := rerolls;
    if first in chosen {
      var j := UnusedIndex(chosen, n);
      assert Hits(prn, n, j, base + rerolls + 1);
      var k :| k >= base + rerolls + 1 && prn(k) % n == j;
      gas := k - base;
    }
    RerollReaches(prn, n, base, chosen, first, rerolls, gas);
  }

  lemma {:induction false} FairFromEnds(prn: Stream, n: nat, size: nat, chosen: seq<nat>, rerolls: nat) returns (gas: nat)
    requires Fair(prn, n) && |chosen| <= size <= n
    requires forall i :: 0 <= i < |chosen| ==> chosen[i] < n
    ensures gas >= rerolls && SelectFrom(prn, n, size, chosen, rerolls, gas).Some?
    decreases size - |chosen|
  {
    var i := |chosen|;
    if i == size {
      gas := rerolls;
    } else {
      var first, base := prn(i) % n, i + size;
      var at := FairSeat(prn, n, base, chosen, first, rerolls);
      RerollResult(prn, n, base, chosen, first, rerolls, at);
      var r := Reroll(prn, n, base, chosen, first, rerolls, at).value;
      var rest := FairFromEnds(prn, n, size, chosen + [r.0], r.1);
      gas := if rest < at then at else rest;
      RerollMoreGas(prn, n, base, chosen, first, rerolls, at, gas);
      SelectMoreGas(prn, n, size, chosen + [r.0], r.1, rest, gas);
    }
  }

  /** On a stream that keeps coming back to every index, some amount of gas suffices
      exactly when there are at least as many candidates as seats. */
  lemma FairSelectionEnds(prn: Stream, n: nat, size: nat)
    requires Fair(prn, n)
    ensures (exists gas: nat :: SelectIndices(prn, n, size, gas).Some?) <==> size <= n
  {
    if size <= n {
      var gas := FairFromEnds(prn, n, size, [], 0);
      assert SelectIndices(prn, n, size, gas).Some?;
    }
    forall gas: nat | SelectIndices(prn, n, size, gas).Some? ensures size <= n {
      SelectFromDistinct(prn, n, size, [], 0, gas);
      DistinctIndicesBounded(SelectIndices(prn, n, size, gas).value, n);
    }
  }

  /** contracts/src/committee.rs, the leader of a slot.  The division by the committee
      size panics when that size is zero. */
  datatype Leader = NoCommittee | DivisionByZero | Leader(account: Option<AccountId>)

  function SlotLeader(sha: Sha256, committee: Option<seq<AccountId>>, size: nat, random: nat, slot: nat): Leader {
    if committee.None? then NoCommittee
    else if size == 0 then DivisionByZero
    else
      var i := Prn(sha, random, slot) % size;
      Leader(if i < |committee.value| then Some(committee.value[i]) else None)
  }
}
