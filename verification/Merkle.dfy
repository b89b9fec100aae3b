/** contracts/src/merkle.rs: the Merkle root of the data request accumulator.

    `Merklize` reduces an array in place, level by level.  It is proved equal to
    `Root`, the top-down recursive tree over the sorted leaf hashes whose left
    part is the largest power of two below the number of leaves (the tree shape of
    section 2.1 of RFC 6962, without its domain-separation prefixes). */
module Merkle {
  import opened Bytes
  import opened Collections

  // ----- sorting

  predicate HashLeq(a: CryptoHash, b: CryptoHash) {
    Leq(a.bytes, b.bytes)
  }

  ghost predicate Sorted(s: seq<CryptoHash>) {
    SortedBy(HashLeq, s)
  }

  lemma SmallestFirst(x: CryptoHash, s: seq<CryptoHash>)
    requires Sorted(s) && (s != [] ==> HashLeq(x, s[0]))
    ensures Sorted([x] + s)
  {
    forall j | 0 <= j < |s| ensures HashLeq(x, s[j]) {
      if j > 0 { LeqTransitive(x.bytes, s[0].bytes, s[j].bytes); }
    }
  }

  lemma HeadStaysFirst(s: seq<CryptoHash>, x: CryptoHash, t: seq<CryptoHash>)
    requires s != [] && Sorted(s) && HashLeq(s[0], x) && Sorted(t) && multiset(t) == multiset(s[1..]) + multiset{x}
    ensures Sorted([s[0]] + t)
  {
    if t != [] {
      assert t[0] in multiset(t);
      assert t[0] == x || t[0] in s[1..];
    }
    SmallestFirst(s[0], t);
  }

  function InsertHash(x: CryptoHash, s: seq<CryptoHash>): (r: seq<CryptoHash>)
    requires Sorted(s)
    ensures Sorted(r) && multiset(r) == multiset(s) + multiset{x} && |r| == |s| + 1
  {
    if s == [] then [x]
    else if HashLeq(x, s[0]) then
      SmallestFirst(x, s);
      [x] + s
    else
      LeqTotal(x.bytes, s[0].bytes);
      assert s == [s[0]] + s[1..];
      var t := InsertHash(x, s[1..]);
      HeadStaysFirst(s, x, t);
      [s[0]] + t
  }

  function SortHashes(s: seq<CryptoHash>): (r: seq<CryptoHash>)
    ensures Sorted(r) && multiset(r) == multiset(s) && |r| == |s|
  {
    if s == [] then [] else
      assert s == [s[0]] + s[1..];
      InsertHash(s[0], SortHashes(s[1..]))
  }

  lemma SortUnique(a: seq<CryptoHash>, b: seq<CryptoHash>)
    requires multiset(a) == multiset(b)
    ensures SortHashes(a) == SortHashes(b)
  {
    forall x: CryptoHash, y: CryptoHash | HashLeq(x, y) && HashLeq(y, x) ensures x == y {
      LeqAntisymmetric(x.bytes, y.bytes);
    }
    SortedUnique(HashLeq, SortHashes(a), SortHashes(b));
  }

  /** In the sorted list equal hashes are neighbours, and of two different neighbours the
      first has the smaller byte where they first differ. */
  lemma SortedByBytes(s: seq<CryptoHash>, i: nat)
    requires i + 1 < |s|
    ensures var t := SortHashes(s);
            t[i] == t[i + 1] || Precedes(t[i].bytes, t[i + 1].bytes)
  {
    var t := SortHashes(s);
    assert HashLeq(t[i], t[i + 1]);
    LeqIsLexicographic(t[i].bytes, t[i + 1].bytes);
  }

  // ----- the reference tree

  function CombineHash(sha: Sha256, a: CryptoHash, b: CryptoHash): CryptoHash {
    sha(a.bytes + b.bytes)
  }

  predicate IsPowerOfTwo(k: nat) {
    k == 1 || (k > 0 && k % 2 == 0 && IsPowerOfTwo(k / 2))
  }

  /** The largest power of two below `n`. */
  function SplitPoint(n: nat): (k: nat)
    requires n >= 2
    ensures IsPowerOfTwo(k) && k < n <= 2 * k
  {
    if n == 2 then 1 else 2 * SplitPoint((n + 1) / 2)
  }

  /** The least power of two at or above `n`. */
  function NextPowerOfTwo(n: nat): (k: nat)
    requires n >= 1
    ensures IsPowerOfTwo(k) && n <= k && (k == 1 || k / 2 < n)
  {
    if n == 1 then 1 else 2 * SplitPoint(n)
  }

  function TreeRoot(sha: Sha256, s: seq<CryptoHash>): CryptoHash
    requires s != []
    decreases |s|
  {
    if |s| == 1 then s[0] else
      var k := SplitPoint(|s|);
      CombineHash(sha, TreeRoot(sha, s[..k]), TreeRoot(sha, s[k..]))
  }

  function LeafHash(sha: Sha256): Request -> CryptoHash {
    r => sha(BorshString(r))
  }

  function LeafHashes(sha: Sha256, arr: seq<Request>): (r: seq<CryptoHash>)
    ensures |r| == |arr|
  {
    Map(LeafHash(sha), arr)
  }

  function Root(sha: Sha256, arr: seq<Request>): CryptoHash {
    if arr == [] then ZERO_HASH else TreeRoot(sha, SortHashes(LeafHashes(sha, arr)))
  }

  // ----- one bottom-up pass

  function Parent(sha: Sha256, s: seq<CryptoHash>, i: nat): CryptoHash
    requires 2 * i < |s|
  {
    if 2 * i + 1 >= |s| then s[2 * i] else CombineHash(sha, s[2 * i], s[2 * i + 1])
  }

  function Level(sha: Sha256, s: seq<CryptoHash>): (r: seq<CryptoHash>)
    ensures |r| == (|s| + 1) / 2
    ensures forall i :: 0 <= i < |r| ==> r[i] == Parent(sha, s, i)
  {
    seq((|s| + 1) / 2, i requires 0 <= i < (|s| + 1) / 2 => Parent(sha, s, i))
  }

  lemma LevelSplits(sha: Sha256, s: seq<CryptoHash>, k: nat)
    requires k % 2 == 0 && k <= |s|
    ensures Level(sha, s)[..k / 2] == Level(sha, s[..k]) && Level(sha, s)[k / 2..] == Level(sha, s[k..])
  {
  }

  /** A pass keeps the root of the top-down tree. */
  lemma {:induction false} LevelKeepsRoot(sha: Sha256, s: seq<CryptoHash>)
    requires s != []
    ensures TreeRoot(sha, Level(sha, s)) == TreeRoot(sha, s)
    decreases |s|
  {
    if |s| == 1 {
    } else if |s| == 2 {
      assert SplitPoint(2) == 1;
      assert s[..1] == [s[0]] && s[1..] == [s[1]];
    } else {
      var k := SplitPoint(|s|);
      assert SplitPoint((|s| + 1) / 2) == k / 2;
      LevelSplits(sha, s, k);
      LevelKeepsRoot(sha, s[..k]);
      LevelKeepsRoot(sha, s[k..]);
    }
  }

  /** One pass of the loop: `hashes[..arrLen]` becomes the next level up, in place. */
  method CombineLevel(sha: Sha256, hashes: array<CryptoHash>, len: nat, arrLen: nat)
    requires arrLen <= hashes.Length && arrLen <= 2 * len
    modifies hashes
    ensures hashes[..(arrLen + 1) / 2] == Level(sha, old(hashes[..arrLen]))
  {
    ghost var cur := hashes[..arrLen];
    for i := 0 to len
      invariant forall k :: 0 <= k < i && 2 * k < arrLen ==> hashes[k] == Parent(sha, cur, k)
      // every slot this pass has yet to read still holds the previous level
      invariant forall k :: i <= k < arrLen ==> hashes[k] == cur[k]
    {
      if 2 * i >= arrLen { continue; }
      var hash := if 2 * i + 1 >= arrLen then hashes[2 * i]
                  else CombineHash(sha, hashes[2 * i], hashes[2 * i + 1]);
      hashes[i] := hash;
    }
  }

  method Merklize(sha: Sha256, arr: seq<Request>) returns (root: CryptoHash)
    ensures root == Root(sha, arr)
  {
    if arr == [] { return ZERO_HASH; }
    var len := NextPowerOfTwo(|arr|);
    var sorted := SortHashes(LeafHashes(sha, arr));
    if len == 1 { return sorted[0]; }
    var hashes := new CryptoHash[|sorted|](i requires 0 <= i < |sorted| => sorted[i]);
    var arrLen := |sorted|;
    assert hashes[..arrLen] == sorted;
    while len > 1
      invariant 1 <= arrLen <= hashes.Length && len == NextPowerOfTwo(arrLen)
      invariant TreeRoot(sha, hashes[..arrLen]) == TreeRoot(sha, sorted)
      decreases arrLen
    {
      len := len / 2;
      LevelKeepsRoot(sha, hashes[..arrLen]);
      CombineLevel(sha, hashes, len, arrLen);
      arrLen := (arrLen + 1) / 2;
    }
    return hashes[0];
  }

  // ----- what the root commits to

  /** The root does not depend on the order in which requests were posted. */
  lemma RootOrderInsensitive(sha: Sha256, a: seq<Request>, b: seq<Request>)
    requires multiset(a) == multiset(b)
    ensures Root(sha, a) == Root(sha, b)
  {
    MapMultiset(LeafHash(sha), a, b);
    SortUnique(LeafHashes(sha, a), LeafHashes(sha, b));
    assert |multiset(a)| == |a| && |multiset(b)| == |b|;
  }

  /** The byte strings hashed at the inner nodes of the tree over `s`. */
  ghost function TreeInputs(sha: Sha256, s: seq<CryptoHash>): set<Bytes>
    requires s != []
    decreases |s|
  {
    if |s| == 1 then {} else
      var k := SplitPoint(|s|);
      {TreeRoot(sha, s[..k]).bytes + TreeRoot(sha, s[k..]).bytes} + TreeInputs(sha, s[..k]) + TreeInputs(sha, s[k..])
  }

  ghost function LeafInputs(arr: seq<Request>): set<Bytes> {
    set r | r in arr :: BorshString(r)
  }

  /** Everything hashed while computing `Root(sha, arr)`. */
  ghost function RootInputs(sha: Sha256, arr: seq<Request>): set<Bytes> {
    if arr == [] then {} else LeafInputs(arr) + TreeInputs(sha, SortHashes(LeafHashes(sha, arr)))
  }

  lemma SameChildren(sha: Sha256, a: seq<CryptoHash>, b: seq<CryptoHash>, inputs: set<Bytes>)
    requires |a| > 1 && |b| > 1 && TreeInputs(sha, a) + TreeInputs(sha, b) <= inputs && CollisionFreeOn(sha, inputs)
    requires TreeRoot(sha, a) == TreeRoot(sha, b)
    ensures TreeRoot(sha, a[..SplitPoint(|a|)]) == TreeRoot(sha, b[..SplitPoint(|b|)])
    ensures TreeRoot(sha, a[SplitPoint(|a|)..]) == TreeRoot(sha, b[SplitPoint(|b|)..])
  {
    var k, m := SplitPoint(|a|), SplitPoint(|b|);
    var la, ra := TreeRoot(sha, a[..k]).bytes, TreeRoot(sha, a[k..]).bytes;
    var lb, rb := TreeRoot(sha, b[..m]).bytes, TreeRoot(sha, b[m..]).bytes;
    assert la + ra in inputs && lb + rb in inputs;
    assert la == (la + ra)[..32] && ra == (la + ra)[32..];
    assert lb == (lb + rb)[..32] && rb == (lb + rb)[32..];
  }

  lemma {:induction false} TreeRootInjective(sha: Sha256, a: seq<CryptoHash>, b: seq<CryptoHash>, inputs: set<Bytes>)
    requires a != [] && |a| == |b|
    requires TreeInputs(sha, a) <= inputs && TreeInputs(sha, b) <= inputs && CollisionFreeOn(sha, inputs)
    requires TreeRoot(sha, a) == TreeRoot(sha, b)
    ensures a == b
    decreases |a|
  {
    if |a| > 1 {
      var k := SplitPoint(|a|);
      SameChildren(sha, a, b, inputs);
      ChildInputs(sha, a);
      ChildInputs(sha, b);
      TreeRootInjective(sha, a[..k], b[..k], inputs);
      TreeRootInjective(sha, a[k..], b[k..], inputs);
      assert a == a[..k] + a[k..] && b == b[..k] + b[k..];
    }
  }

  lemma ChildInputs(sha: Sha256, s: seq<CryptoHash>)
    requires |s| > 1
    ensures var k := SplitPoint(|s|);
            TreeInputs(sha, s[..k]) <= TreeInputs(sha, s) && TreeInputs(sha, s[k..]) <= TreeInputs(sha, s)
  {
  }

  /** For accumulators of one length, and no collision among the inputs hashed, the
      root determines exactly the multiset of requests. */
  lemma RootCommitsToRequests(sha: Sha256, a: seq<Request>, b: seq<Request>)
    requires |a| == |b|
    requires CollisionFreeOn(sha, RootInputs(sha, a) + RootInputs(sha, b))
    ensures Root(sha, a) == Root(sha, b) <==> multiset(a) == multiset(b)
  {
    var inputs := RootInputs(sha, a) + RootInputs(sha, b);
    if multiset(a) == multiset(b) {
      RootOrderInsensitive(sha, a, b);
    } else if a != [] && Root(sha, a) == Root(sha, b) {
      TreeRootInjective(sha, SortHashes(LeafHashes(sha, a)), SortHashes(LeafHashes(sha, b)), inputs);
      forall x, y | x in a && y in b && LeafHash(sha)(x) == LeafHash(sha)(y) ensures x == y {
        assert BorshString(x) in inputs && BorshString(y) in inputs;
        BorshStringInjective(x, y);
      }
      MapInjective(LeafHash(sha), a, b);
    }
  }

  // ----- accumulators of different lengths

  /** Every hash of `s` is the hash of a leaf, none of which has the length of two hashes. */
  ghost predicate FromLeaves(sha: Sha256, s: seq<CryptoHash>, leaves: set<Bytes>) {
    && (forall l :: l in leaves ==> |l| != 64)
    && forall i :: 0 <= i < |s| ==> IsLeaf(sha, s[i], leaves)
  }

  ghost predicate IsLeaf(sha: Sha256, h: CryptoHash, leaves: set<Bytes>) {
    exists l :: l in leaves && sha(l) == h
  }

  /** A leaf is not mistaken for an inner node. */
  lemma LeafIsNoNode(sha: Sha256, leaf: seq<CryptoHash>, s: seq<CryptoHash>, leaves: set<Bytes>, inputs: set<Bytes>)
    requires leaf != [] && s != [] && FromLeaves(sha, leaf, leaves)
    requires leaves + TreeInputs(sha, s) <= inputs && CollisionFreeOn(sha, inputs)
    ensures |leaf| == 1 && |s| > 1 ==> TreeRoot(sha, leaf) != TreeRoot(sha, s)
  {
    if |leaf| == 1 && |s| > 1 {
      assert IsLeaf(sha, leaf[0], leaves);
      var l :| l in leaves && sha(l) == leaf[0];
      var k := SplitPoint(|s|);
      var node := TreeRoot(sha, s[..k]).bytes + TreeRoot(sha, s[k..]).bytes;
      assert node in inputs && l in inputs && |node| == 64;
    }
  }

  lemma HalvesFromLeaves(sha: Sha256, s: seq<CryptoHash>, leaves: set<Bytes>)
    requires |s| > 1 && FromLeaves(sha, s, leaves)
    ensures var k := SplitPoint(|s|);
            && FromLeaves(sha, s[..k], leaves) && FromLeaves(sha, s[k..], leaves)
            && TreeInputs(sha, s[..k]) + TreeInputs(sha, s[k..]) <= TreeInputs(sha, s)
  {
  }

  /** Trees over such leaves have equal roots only if they are equal, whatever their sizes. */
  lemma {:induction false} LeafTreesInjective(sha: Sha256, a: seq<CryptoHash>, b: seq<CryptoHash>, leaves: set<Bytes>, inputs: set<Bytes>)
    requires a != [] && b != [] && FromLeaves(sha, a, leaves) && FromLeaves(sha, b, leaves)
    requires leaves + TreeInputs(sha, a) + TreeInputs(sha, b) <= inputs && CollisionFreeOn(sha, inputs)
    requires TreeRoot(sha, a) == TreeRoot(sha, b)
    ensures a == b
    decreases |a|
  {
    LeafIsNoNode(sha, a, b, leaves, inputs);
    LeafIsNoNode(sha, b, a, leaves, inputs);
    if |a| > 1 {
      var k, m := SplitPoint(|a|), SplitPoint(|b|);
      HalvesFromLeaves(sha, a, leaves);
      HalvesFromLeaves(sha, b, leaves);
      SameChildren(sha, a, b, inputs);
      LeafTreesInjective(sha, a[..k], b[..m], leaves, inputs);
      LeafTreesInjective(sha, a[k..], b[m..], leaves, inputs);
      assert a == a[..k] + a[k..] && b == b[..m] + b[m..];
    }
  }

  /** No request is encoded in as many bytes as two hashes. */
  ghost predicate NoneOverlaps(arr: seq<Request>) {
    forall r :: r in arr ==> |r.text| != 60
  }

  lemma SortedFromLeaves(sha: Sha256, arr: seq<Request>, leaves: set<Bytes>)
    requires NoneOverlaps(arr) && LeafInputs(arr) <= leaves && (forall l :: l in leaves ==> |l| != 64)
    ensures FromLeaves(sha, SortHashes(LeafHashes(sha, arr)), leaves)
  {
    var hashes := LeafHashes(sha, arr);
    var s := SortHashes(hashes);
    forall i | 0 <= i < |s| ensures IsLeaf(sha, s[i], leaves) {
      assert s[i] in multiset(hashes);
      var j :| 0 <= j < |hashes| && hashes[j] == s[i];
      assert BorshString(arr[j]) in LeafInputs(arr);
      assert sha(BorshString(arr[j])) == s[i];
    }
  }

  /** Accumulators of any lengths, both empty or both not, none of whose requests is sixty
      bytes long: without a collision the root determines the multiset of requests, and so
      their number. */
  lemma RootCommitsUnlessSixty(sha: Sha256, a: seq<Request>, b: seq<Request>)
    requires (a == [] <==> b == []) && NoneOverlaps(a) && NoneOverlaps(b)
    requires CollisionFreeOn(sha, RootInputs(sha, a) + RootInputs(sha, b))
    ensures Root(sha, a) == Root(sha, b) <==> multiset(a) == multiset(b)
  {
    if multiset(a) == multiset(b) {
      RootOrderInsensitive(sha, a, b);
    } else if Root(sha, a) == Root(sha, b) {
      SameLengthRoots(sha, a, b);
      RootCommitsToRequests(sha, a, b);
    }
  }

  lemma SameLengthRoots(sha: Sha256, a: seq<Request>, b: seq<Request>)
    requires (a == [] <==> b == []) && NoneOverlaps(a) && NoneOverlaps(b)
    requires CollisionFreeOn(sha, RootInputs(sha, a) + RootInputs(sha, b)) && Root(sha, a) == Root(sha, b)
    ensures |a| == |b|
  {
    if a != [] {
      var inputs, leaves := RootInputs(sha, a) + RootInputs(sha, b), LeafInputs(a) + LeafInputs(b);
      forall l | l in leaves ensures |l| != 64 {
        var r :| (r in a || r in b) && BorshString(r) == l;
      }
      SortedFromLeaves(sha, a, leaves);
      SortedFromLeaves(sha, b, leaves);
      LeafTreesInjective(sha, SortHashes(LeafHashes(sha, a)), SortHashes(LeafHashes(sha, b)), leaves, inputs);
    }
  }

  /** Sixty-four bytes that are at once two hashes in order and an encoded request. */
  function Overlap(): (b: Bytes)
    ensures |b| == 64 && b[..4] == LittleEndian(60, 4) && b[0] == 60 && b[32] == 61
  {
    LittleEndian(60, 4) + ZeroBytes(28) + [61] + ZeroBytes(31)
  }

  /** Two requests hash to the halves of `Overlap`, everything else to zero. */
  function HalvesHash(first: Bytes, second: Bytes): Sha256 {
    (x: Bytes) => if x == first then Hash(Overlap()[..32]) else if x == second then Hash(Overlap()[32..]) else ZERO_HASH
  }

  lemma HalvesCollisionFree(first: Bytes, second: Bytes)
    requires |first| == 4 && |second| == 5
    ensures CollisionFreeOn(HalvesHash(first, second), {first, second, Overlap()})
  {
    var sha := HalvesHash(first, second);
    assert sha(first).bytes[0] == 60 && sha(second).bytes[0] == 61 && sha(Overlap()).bytes[0] == 0;
  }

  lemma SingleRoot(sha: Sha256, x: Request)
    ensures Root(sha, [x]) == sha(BorshString(x)) && RootInputs(sha, [x]) == {BorshString(x)}
  {
    assert LeafHashes(sha, [x]) == [LeafHash(sha)(x)];
  }

  lemma SortPair(l: CryptoHash, r: CryptoHash)
    requires l.bytes[0] < r.bytes[0]
    ensures SortHashes([l, r]) == [l, r]
  {
    assert SortHashes([r]) == [r] && [l, r][1..] == [r];
  }

  lemma PairRoot(sha: Sha256, x: Request, y: Request, l: CryptoHash, r: CryptoHash)
    requires sha(BorshString(x)) == l && sha(BorshString(y)) == r && l.bytes[0] < r.bytes[0]
    ensures Root(sha, [x, y]) == sha(l.bytes + r.bytes)
    ensures RootInputs(sha, [x, y]) == {BorshString(x), BorshString(y), l.bytes + r.bytes}
  {
    assert LeafHashes(sha, [x, y]) == [l, r];
    SortPair(l, r);
    assert SplitPoint(2) == 1 && [l, r][..1] == [l] && [l, r][1..] == [r];
    assert TreeRoot(sha, [l]) == l && TreeRoot(sha, [r]) == r;
    assert TreeInputs(sha, [l, r]) == {l.bytes + r.bytes};
  }

  lemma SharedRoot(one: Request, two: Request, both: Request, sha: Sha256)
    requires |one.text| == 0 && |two.text| == 1 && BorshString(both) == Overlap()
    requires sha == HalvesHash(BorshString(one), BorshString(two))
    ensures Root(sha, [both]) == Root(sha, [one, two])
    ensures CollisionFreeOn(sha, RootInputs(sha, [both]) + RootInputs(sha, [one, two]))
  {
    assert Overlap() == Overlap()[..32] + Overlap()[32..];
    SingleRoot(sha, both);
    PairRoot(sha, one, two, Hash(Overlap()[..32]), Hash(Overlap()[32..]));
    HalvesCollisionFree(BorshString(one), BorshString(two));
  }

  /** A request of sixty bytes can have the root of two others, with no collision among the
      inputs hashed: nothing tells the encoding of a leaf from that of an inner node. */
  lemma SixtyBytesOverlap() returns (sha: Sha256, one: Request, two: Request, both: Request)
    ensures |both.text| == 60 && Root(sha, [both]) == Root(sha, [one, two])
    ensures CollisionFreeOn(sha, RootInputs(sha, [both]) + RootInputs(sha, [one, two]))
  {
    one, two, both := Request([]), Request([0]), Request(Overlap()[4..]);
    sha := HalvesHash(BorshString(one), BorshString(two));
    assert BorshString(both) == Overlap();
    SharedRoot(one, two, both, sha);
  }
}
